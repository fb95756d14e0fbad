/** The public blog page: a growing window over the posts and a reader modal that steps
    circularly through all of them. */
module BlogPage {
  import opened Wrappers
  import opened Json
  import opened Pagination
  import Cyclic

  /** Posts shown before any "Load More". */
  const InitialCount: nat := 4
  /** Posts added by one "Load More". */
  const Step: nat := 2

  /** The page's state variables; the handlers below are its event handlers. */
  class Blog {
    var visibleCount: nat
    var isModalOpen: bool
    /** `None` is `NaN`, which `(prev + 1) % 0` yields once the post list is empty. */
    var currentBlogIndex: Option<int>
    var blogData: seq<Record>
    var loading: bool

    /** The window never shrinks below its initial size and the reader index is never negative. */
    ghost predicate Valid()
      reads this
    {
      visibleCount >= InitialCount && (currentBlogIndex.Some? ==> currentBlogIndex.value >= 0)
    }

    constructor ()
      ensures Valid()
      ensures visibleCount == InitialCount && !isModalOpen && currentBlogIndex == Some(0)
      ensures blogData == [] && loading
    {
      visibleCount, isModalOpen, currentBlogIndex := InitialCount, false, Some(0);
      blogData, loading := [], true;
    }

    /** `visibleBlogs` */
    function VisibleBlogs(): (r: seq<Record>)
      reads this
      ensures |r| == Min(visibleCount, |blogData|) && r <= blogData
    {
      Visible(blogData, visibleCount)
    }

    /** The post the modal shows: only when it is open and `blogData[currentBlogIndex]` exists. */
    function ModalPost(): (post: Option<Record>)
      reads this
      ensures post.Some? <==> isModalOpen && currentBlogIndex.Some?
                              && 0 <= currentBlogIndex.value < |blogData|
      ensures post.Some? ==> post.value == blogData[currentBlogIndex.value]
    {
      if isModalOpen && currentBlogIndex.Some? && 0 <= currentBlogIndex.value < |blogData|
      then Some(blogData[currentBlogIndex.value])
      else None
    }

    /** `loadBlogData`, run on mount and every 30 seconds: the fetched posts replace the
        list; the window and the reader index stay as they were. */
    method Refresh(posts: seq<Record>)
      requires Valid()
      modifies this
      ensures Valid()
      ensures blogData == posts && !loading
      ensures visibleCount == old(visibleCount) && currentBlogIndex == old(currentBlogIndex)
      ensures isModalOpen == old(isModalOpen)
    {
      loading := true;
      blogData := posts;
      loading := false;
    }

    /** "Load More", rendered only while `hasMore`: two more posts, never past the end. */
    method LoadMore()
      requires Valid() && HasMore(visibleCount, |blogData|)
      modifies this`visibleCount
      ensures Valid()
      ensures visibleCount == Min(old(visibleCount) + Step, |blogData|)
      ensures old(visibleCount) < visibleCount <= |blogData|
      ensures old(VisibleBlogs()) <= VisibleBlogs()
    {
      visibleCount := Min(visibleCount + Step, |blogData|);
    }

    /** "Show Less", rendered only when every post is shown and there are more than four. */
    method ShowLess()
      requires Valid() && ShowLessOffered(visibleCount, |blogData|, InitialCount)
      modifies this`visibleCount
      ensures Valid()
      ensures visibleCount == InitialCount && HasMore(visibleCount, |blogData|)
    {
      visibleCount := InitialCount;
    }

    /** `openModal(index)`, from a click on the `index`-th visible card. */
    method OpenModal(index: nat)
      requires Valid() && index < |VisibleBlogs()|
      modifies this`currentBlogIndex, this`isModalOpen
      ensures Valid()
      ensures currentBlogIndex == Some(index) && isModalOpen
      ensures ModalPost() == Some(blogData[index])
    {
      currentBlogIndex := Some(index);
      isModalOpen := true;
    }

    /** `closeModal` */
    method CloseModal()
      modifies this`isModalOpen
      ensures !isModalOpen && ModalPost() == None
    {
      isModalOpen := false;
    }

    /** "Next": `(prev + 1) % blogData.length`. With posts present the reader lands on a post
        whichever index it had; with none the index becomes `NaN`. */
    method NextBlog()
      requires Valid()
      modifies this`currentBlogIndex
      ensures Valid()
      ensures currentBlogIndex == if old(currentBlogIndex).None? || |blogData| == 0 then None
                                  else Some(Cyclic.Next(old(currentBlogIndex).value, |blogData|))
      ensures old(currentBlogIndex).Some? && |blogData| > 0 ==> ModalPost().Some? == isModalOpen
    {
      if currentBlogIndex.Some? && |blogData| > 0 {
        currentBlogIndex := Some(Cyclic.Next(currentBlogIndex.value, |blogData|));
      } else {
        currentBlogIndex := None;
      }
    }

    /** "Previous": `(prev - 1 + blogData.length) % blogData.length`. */
    method PrevBlog()
      requires Valid()
      modifies this`currentBlogIndex
      ensures Valid()
      ensures currentBlogIndex == if old(currentBlogIndex).None? || |blogData| == 0 then None
                                  else Some(Cyclic.Prev(old(currentBlogIndex).value, |blogData|))
      ensures old(currentBlogIndex).Some? && |blogData| > 0 ==> ModalPost().Some? == isModalOpen
    {
      if currentBlogIndex.Some? && |blogData| > 0 {
        currentBlogIndex := Some(Cyclic.Prev(currentBlogIndex.value, |blogData|));
      } else {
        currentBlogIndex := None;
      }
    }
  }

  /** Next followed by Previous brings the reader back to the post it showed. */
  method NextThenPrevRestores(b: Blog)
    requires b.Valid() && b.ModalPost().Some?
    modifies b
    ensures b.currentBlogIndex == old(b.currentBlogIndex) && b.ModalPost() == old(b.ModalPost())
  {
    b.NextBlog();
    b.PrevBlog();
    Cyclic.NextPrevInverse(old(b.currentBlogIndex).value, |b.blogData|);
  }
}
