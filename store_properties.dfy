/** Properties of the backend's record operations that relate several requests: ids,
    lookups after a change, deletes repeated or after a create. */
module StoreProperties {
  import opened Wrappers
  import opened Json
  import opened Store
  import Lists

  /** The record's id when it is a number (the only kind a parsed path id can equal). */
  function NumericId(r: Record): (id: Option<int>)
    ensures forall p :: IdMatches(r, p) <==> p.Some? && id == p
  {
    if "id" in r && r["id"].Num? then Some(r["id"].n) else None
  }

  /** No two records of the list carry the same numeric id. `Date.now()` does not promise
      this; it is the condition under which an id names one record. */
  ghost predicate UniqueIds(rs: seq<Record>)
  {
    forall i, j :: 0 <= i < j < |rs| && NumericId(rs[i]).Some? ==> NumericId(rs[i]) != NumericId(rs[j])
  }

  /** Appending a record whose id no stored record has keeps the ids unique. */
  lemma FreshIdKeepsIdsUnique(rs: seq<Record>, r: Record, now: int)
    requires UniqueIds(rs)
    requires FindIndex(rs, Some(now)) == -1
    requires "id" in r && r["id"] == Num(now)
    ensures UniqueIds(rs + [r])
  {
    var rs' := rs + [r];
    forall i, j | 0 <= i < j < |rs'| && NumericId(rs'[i]).Some?
      ensures NumericId(rs'[i]) != NumericId(rs'[j])
    {
      if j == |rs| {
        assert !IdMatches(rs[i], Some(now));
      }
    }
  }

  /** A record just created under a fresh id is the one its id finds, at the end of the list. */
  lemma CreatedRecordIsFound(rs: seq<Record>, r: Record, now: int)
    requires FindIndex(rs, Some(now)) == -1
    requires "id" in r && r["id"] == Num(now)
    ensures FindIndex(rs + [r], Some(now)) == |rs|
  {
    var rs' := rs + [r];
    assert forall k :: 0 <= k < |rs| ==> rs'[k] == rs[k];
    assert IdMatches(rs'[|rs|], Some(now));
  }

  /** With unique ids, no record after the first match of an id carries that id. */
  lemma NoMatchAfterFirst(rs: seq<Record>, id: Option<int>)
    requires UniqueIds(rs)
    requires FindIndex(rs, id) >= 0
    ensures var i := FindIndex(rs, id); forall k :: i < k < |rs| ==> !IdMatches(rs[k], id)
  {
    var i := FindIndex(rs, id);
    forall k | i < k < |rs| ensures !IdMatches(rs[k], id) {
      assert NumericId(rs[i]) != NumericId(rs[k]);
    }
  }

  /** With unique ids, deleting an id that is present removes exactly that one record and
      leaves the others in order. */
  lemma DeleteRemovesExactlyOne(rs: seq<Record>, id: Option<int>)
    requires UniqueIds(rs)
    requires FindIndex(rs, id) >= 0
    ensures var i := FindIndex(rs, id); RemoveById(rs, id) == rs[..i] + rs[i + 1..]
  {
    var i := FindIndex(rs, id);
    var keep := NotMatching(id);
    forall k | 0 <= k < |rs| && k != i ensures keep(rs[k]) {
      if k > i {
        NoMatchAfterFirst(rs, id);
      }
    }
    Lists.FilterRemovesAt(rs, i, keep);
  }

  /** Deleting the same id twice leaves what deleting it once left. */
  lemma DeleteIdempotent(rs: seq<Record>, id: Option<int>)
    ensures RemoveById(RemoveById(rs, id), id) == RemoveById(rs, id)
  {
    Lists.FilterIdempotent(rs, NotMatching(id));
  }

  /** Deleting an id that nothing has leaves the collection as it was. */
  lemma DeleteWithoutMatchKeepsAll(rs: seq<Record>, id: Option<int>)
    requires FindIndex(rs, id) == -1
    ensures RemoveById(rs, id) == rs
  {
    Lists.FilterKeepsAll(rs, NotMatching(id));
  }

  /** After a delete, an update or status update with that id is a 404. */
  lemma DeletedIdNotFound(rs: seq<Record>, id: Option<int>)
    ensures FindIndex(RemoveById(rs, id), id) == -1
  {
  }

  /** A path id that parses to `NaN` matches nothing: update is a 404 and delete removes nothing. */
  lemma NaNMatchesNothing(rs: seq<Record>)
    ensures FindIndex(rs, None) == -1
    ensures RemoveById(rs, None) == rs
  {
    DeleteWithoutMatchKeepsAll(rs, None);
  }

  /** Two lists whose records match an id at the same positions give the same lookup. */
  lemma {:induction false} SameMatchesSameIndex(a: seq<Record>, b: seq<Record>, id: Option<int>)
    requires |a| == |b|
    requires forall k :: 0 <= k < |a| ==> (IdMatches(a[k], id) <==> IdMatches(b[k], id))
    ensures FindIndex(a, id) == FindIndex(b, id)
  {
    if a != [] {
      SameMatchesSameIndex(a[1..], b[1..], id);
    }
  }

  /** A status update keeps the record's id, so every id still finds the same position. */
  lemma StatusUpdateKeepsLookup(rs: seq<Record>, i: nat, status: Option<Value>, id: Option<int>)
    requires i < |rs|
    ensures FindIndex(rs[i := WithStatus(rs[i], status)], id) == FindIndex(rs, id)
  {
    SameMatchesSameIndex(rs[i := WithStatus(rs[i], status)], rs, id);
  }

  /** An update whose body has no `id` field keeps every lookup; with an `id` field the
      record takes the body's id instead. */
  lemma MergeLookup(rs: seq<Record>, i: nat, body: Record, id: Option<int>)
    requires i < |rs|
    ensures "id" !in body ==> FindIndex(rs[i := Spread(rs[i], body)], id) == FindIndex(rs, id)
    ensures "id" in body ==> Spread(rs[i], body)["id"] == body["id"]
  {
    if "id" !in body {
      SameMatchesSameIndex(rs[i := Spread(rs[i], body)], rs, id);
    }
  }

  /** The server-assigned fields of a gallery item do not depend on the body: two bodies that
      differ only in `id` and `uploadDate` give the same item. */
  lemma GalleryItemIgnoresAssignedFields(b1: Record, b2: Record, now: int, clock: string)
    requires b1 - {"id", "uploadDate"} == b2 - {"id", "uploadDate"}
    ensures NewGalleryItem(b1, now, clock) == NewGalleryItem(b2, now, clock)
  {
    var r1, r2 := NewGalleryItem(b1, now, clock), NewGalleryItem(b2, now, clock);
    forall k | k in r1.Keys ensures k in r2 && r1[k] == r2[k] {
      if k != "id" && k != "uploadDate" {
        assert k in b1 - {"id", "uploadDate"};
      }
    }
    forall k | k in r2.Keys ensures k in r1 {
      if k != "id" && k != "uploadDate" {
        assert k in b2 - {"id", "uploadDate"};
      }
    }
  }

  /** Likewise for blog posts and `id`, `date`, `uploadDate`. */
  lemma BlogPostIgnoresAssignedFields(b1: Record, b2: Record, now: int, dateClock: string, uploadClock: string)
    requires b1 - {"id", "date", "uploadDate"} == b2 - {"id", "date", "uploadDate"}
    ensures NewBlogPost(b1, now, dateClock, uploadClock) == NewBlogPost(b2, now, dateClock, uploadClock)
  {
    var r1, r2 := NewBlogPost(b1, now, dateClock, uploadClock), NewBlogPost(b2, now, dateClock, uploadClock);
    forall k | k in r1.Keys ensures k in r2 && r1[k] == r2[k] {
      if k != "id" && k != "date" && k != "uploadDate" {
        assert k in b1 - {"id", "date", "uploadDate"};
      }
    }
    forall k | k in r2.Keys ensures k in r1 {
      if k != "id" && k != "date" && k != "uploadDate" {
        assert k in b2 - {"id", "date", "uploadDate"};
      }
    }
  }

  /** Likewise for join submissions: a client-supplied `status` (or `id`, `submissionDate`)
      has no effect, and every new submission is pending. */
  lemma SubmissionIgnoresAssignedFields(b1: Record, b2: Record, now: int, clock: string)
    requires b1 - {"id", "submissionDate", "status"} == b2 - {"id", "submissionDate", "status"}
    ensures NewSubmission(b1, now, clock) == NewSubmission(b2, now, clock)
  {
    var r1, r2 := NewSubmission(b1, now, clock), NewSubmission(b2, now, clock);
    forall k | k in r1.Keys ensures k in r2 && r1[k] == r2[k] {
      if k != "id" && k != "submissionDate" && k != "status" {
        assert k in b1 - {"id", "submissionDate", "status"};
      }
    }
    forall k | k in r2.Keys ensures k in r1 {
      if k != "id" && k != "submissionDate" && k != "status" {
        assert k in b2 - {"id", "submissionDate", "status"};
      }
    }
  }

  /** Setting the same status twice is setting it once. */
  lemma StatusUpdateIdempotent(r: Record, status: Option<Value>)
    ensures WithStatus(WithStatus(r, status), status) == WithStatus(r, status)
  {
  }
}
