/** The public gallery page: a window of images that grows six at a time. */
module GalleryPage {
  import opened Json
  import opened Pagination

  /** Images shown before any "Load More", and the number one press adds. */
  const InitialCount: nat := 6
  const Step: nat := 6

  class Gallery {
    var visibleCount: nat
    var galleryData: seq<Record>
    var loading: bool

    ghost predicate Valid()
      reads this
    {
      visibleCount >= InitialCount
    }

    constructor ()
      ensures Valid() && visibleCount == InitialCount && galleryData == [] && loading
    {
      visibleCount, galleryData, loading := InitialCount, [], true;
    }

    /** `visibleImages` */
    function VisibleImages(): (r: seq<Record>)
      reads this
      ensures |r| == Min(visibleCount, |galleryData|) && r <= galleryData
    {
      Visible(galleryData, visibleCount)
    }

    /** `loadGalleryData`: the fetched items replace the list and `visibleCount` is kept, so
        the window may now exceed the list; the slice still shows no more than there is. */
    method Refresh(items: seq<Record>)
      requires Valid()
      modifies this
      ensures Valid()
      ensures galleryData == items && !loading && visibleCount == old(visibleCount)
      ensures |VisibleImages()| <= |galleryData| && VisibleImages() <= galleryData
    {
      loading := true;
      galleryData := items;
      loading := false;
    }

    /** "Load More", rendered only while `hasMore`: `Math.min(prev + 6, galleryData.length)`. */
    method LoadMore()
      requires Valid() && HasMore(visibleCount, |galleryData|)
      modifies this`visibleCount
      ensures Valid()
      ensures visibleCount == Min(old(visibleCount) + Step, |galleryData|)
      ensures old(visibleCount) < visibleCount <= |galleryData|
      ensures old(VisibleImages()) <= VisibleImages()
    {
      visibleCount := Min(visibleCount + Step, |galleryData|);
    }

    /** "Show Less", rendered only when all of more than six images are shown. */
    method ShowLess()
      requires Valid() && ShowLessOffered(visibleCount, |galleryData|, InitialCount)
      modifies this`visibleCount
      ensures Valid()
      ensures visibleCount == InitialCount && HasMore(visibleCount, |galleryData|)
    {
      visibleCount := InitialCount;
    }
  }
}
