/** The "Load More" / "Show Less" window shared by the blog and gallery pages: the page
    shows the first `count` items and grows the window by a fixed step. */
module Pagination {

  function Min(a: int, b: int): int
  {
    if a <= b then a else b
  }

  /** `data.slice(0, count)`: the first `count` items, or all of them when there are fewer. */
  function Visible<T>(data: seq<T>, count: nat): (r: seq<T>)
    ensures |r| == Min(count, |data|)
    ensures r <= data
  {
    if count <= |data| then data[..count] else data
  }

  /** `hasMore`: some items are not shown yet; the "Load More" button is rendered. */
  predicate HasMore(count: nat, n: nat)
  {
    count < n
  }

  /** `Math.min(prev + step, n)`: the window after one "Load More". */
  function Grown(count: nat, step: nat, n: nat): (r: nat)
    ensures r <= n
    ensures count <= n ==> count <= r
    ensures HasMore(count, n) && step > 0 ==> count < r <= n
  {
    Min(count + step, n)
  }

  /** `!hasMore && count === n && n > initial`: the "Show Less" button is rendered. */
  predicate ShowLessOffered(count: nat, n: nat, initial: nat)
  {
    !HasMore(count, n) && count == n && n > initial
  }

  /** The two buttons are never offered together, and after "Show Less" the window is the
      initial one again, with "Load More" offered. */
  lemma ShowLessThenLoadMore<T>(data: seq<T>, count: nat, initial: nat)
    requires ShowLessOffered(count, |data|, initial)
    ensures !HasMore(count, |data|)
    ensures HasMore(initial, |data|) && |Visible(data, initial)| == initial
  {
  }

  /** After a refresh leaves fewer items than the window, neither button is offered: the
      window can only return to its initial size once the list grows back. */
  lemma NoButtonWhenWindowExceedsList(count: nat, n: nat, initial: nat)
    requires count > n
    ensures !HasMore(count, n) && !ShowLessOffered(count, n, initial)
  {
  }

  /** The window after pressing "Load More" `k` times (each press only while offered). */
  function GrownTimes(count: nat, step: nat, n: nat, k: nat): (r: nat)
    decreases k
  {
    if k == 0 || !HasMore(count, n) then count else GrownTimes(Grown(count, step, n), step, n, k - 1)
  }

  /** Enough presses of "Load More" show every item: after `k` presses with
      `count + k * step >= n`, the window covers the whole list and the button is gone. */
  lemma {:induction false} LoadMoreShowsAll(count: nat, step: nat, n: nat, k: nat)
    requires count <= n
    requires count + k * step >= n
    ensures GrownTimes(count, step, n, k) == n
    ensures !HasMore(GrownTimes(count, step, n, k), n)
    decreases k
  {
    if k > 0 && HasMore(count, n) {
      var c' := Grown(count, step, n);
      assert c' + (k - 1) * step >= n by {
        assert (k - 1) * step == k * step - step;
      }
      LoadMoreShowsAll(c', step, n, k - 1);
    }
  }

  /** Loading more only extends what is shown: the earlier window is a prefix of the new one. */
  lemma GrowingKeepsPrefix<T>(data: seq<T>, count: nat, step: nat)
    ensures Visible(data, count) <= Visible(data, Grown(count, step, |data|))
  {
  }
}
