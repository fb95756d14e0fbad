/** The home page's three-slide carousel: stepping with a transition lock, jumping to a
    slide from its dot, and swiping. */
module HomePage {
  import opened Wrappers
  import Cyclic

  /** The number of slides. */
  const SlideCount: int := 3
  /** A swipe moves the carousel only when the finger travelled more than this many pixels. */
  const SwipeThreshold: int := 50

  /** JavaScript truthiness of a touch coordinate: `null` and `0` are falsy. */
  predicate Truthy(x: Option<int>)
  {
    x.Some? && x.value != 0
  }

  class Home {
    var currentSlide: int
    var isTransitioning: bool
    var isJoinModalOpen: bool
    var touchStart: Option<int>
    var touchEnd: Option<int>
    /** The `isTransitioning` that the five-second interval's `nextSlide` closure captured.
        The effect that installs the interval re-runs only when `currentSlide` changes, so
        this is the lock as it was in the render that last changed the slide. */
    var tickSeesLock: bool

    ghost predicate Valid()
      reads this
    {
      0 <= currentSlide < SlideCount
    }

    constructor ()
      ensures Valid() && currentSlide == 0 && !isTransitioning && !isJoinModalOpen
      ensures touchStart == None && touchEnd == None && !tickSeesLock
    {
      currentSlide, isTransitioning, isJoinModalOpen := 0, false, false;
      touchStart, touchEnd := None, None;
      tickSeesLock := false;
    }

    /** `nextSlide` as a swipe calls it, from the current render: ignored while a transition
        runs, otherwise it locks and advances with wrap-around. The slide change re-installs
        the interval, whose closure now sees the lock held. */
    method NextSlide()
      requires Valid()
      modifies this`currentSlide, this`isTransitioning, this`tickSeesLock
      ensures Valid()
      ensures tickSeesLock == if currentSlide != old(currentSlide) then isTransitioning else old(tickSeesLock)
      ensures old(isTransitioning) ==> currentSlide == old(currentSlide) && isTransitioning
      ensures !old(isTransitioning) ==> isTransitioning && currentSlide == Cyclic.Next(old(currentSlide), SlideCount)
    {
      if !isTransitioning {
        isTransitioning := true;
        currentSlide := Cyclic.Next(currentSlide, SlideCount);
        tickSeesLock := isTransitioning;
      }
    }

    /** The five-second interval firing. It calls the `nextSlide` of the render in which the
        interval was installed, so the lock it checks is `tickSeesLock`, not the current one;
        the step itself uses the current slide (a functional update). */
    method TimerTick()
      requires Valid()
      modifies this`currentSlide, this`isTransitioning, this`tickSeesLock
      ensures Valid()
      ensures old(tickSeesLock) ==>
                currentSlide == old(currentSlide) && isTransitioning == old(isTransitioning) && tickSeesLock
      ensures !old(tickSeesLock) ==>
                isTransitioning && tickSeesLock && currentSlide == Cyclic.Next(old(currentSlide), SlideCount)
    {
      if !tickSeesLock {
        isTransitioning := true;
        currentSlide := Cyclic.Next(currentSlide, SlideCount);
        tickSeesLock := isTransitioning;
      }
    }

    /** `prevSlide`: the same lock, one step back with wrap-around. */
    method PrevSlide()
      requires Valid()
      modifies this`currentSlide, this`isTransitioning, this`tickSeesLock
      ensures Valid()
      ensures tickSeesLock == if currentSlide != old(currentSlide) then isTransitioning else old(tickSeesLock)
      ensures old(isTransitioning) ==> currentSlide == old(currentSlide) && isTransitioning
      ensures !old(isTransitioning) ==> isTransitioning && currentSlide == Cyclic.Prev(old(currentSlide), SlideCount)
    {
      if !isTransitioning {
        isTransitioning := true;
        currentSlide := Cyclic.Prev(currentSlide, SlideCount);
        tickSeesLock := isTransitioning;
      }
    }

    /** `goToSlide(index)` from the `index`-th dot: nothing happens while locked or when the
        dot is the current slide; otherwise it locks and jumps. */
    method GoToSlide(index: int)
      requires Valid() && 0 <= index < SlideCount
      modifies this`currentSlide, this`isTransitioning, this`tickSeesLock
      ensures Valid()
      ensures tickSeesLock == if currentSlide != old(currentSlide) then isTransitioning else old(tickSeesLock)
      ensures old(isTransitioning) || index == old(currentSlide) ==>
                currentSlide == old(currentSlide) && isTransitioning == old(isTransitioning)
      ensures !old(isTransitioning) && index != old(currentSlide) ==> currentSlide == index && isTransitioning
    {
      if !isTransitioning && index != currentSlide {
        isTransitioning := true;
        currentSlide := index;
        tickSeesLock := isTransitioning;
      }
    }

    /** The 500 ms timeout that ends a transition. */
    method Unlock()
      modifies this`isTransitioning
      ensures !isTransitioning
    {
      isTransitioning := false;
    }

    /** `onTouchStart`: forget the previous end point and record where the finger went down. */
    method TouchStart(x: int)
      modifies this`touchStart, this`touchEnd
      ensures touchStart == Some(x) && touchEnd == None
    {
      touchEnd := None;
      touchStart := Some(x);
    }

    /** `onTouchMove` */
    method TouchMove(x: int)
      modifies this`touchEnd
      ensures touchEnd == Some(x)
    {
      touchEnd := Some(x);
    }

    /** `onTouchEnd`: with both coordinates truthy, a leftward swipe of more than 50 px is
        `nextSlide`, a rightward one `prevSlide`; anything else does nothing. */
    method TouchEnd()
      requires Valid()
      modifies this`currentSlide, this`isTransitioning, this`tickSeesLock
      ensures Valid()
      ensures tickSeesLock == if currentSlide != old(currentSlide) then isTransitioning else old(tickSeesLock)
      ensures !Truthy(touchStart) || !Truthy(touchEnd)
              || -SwipeThreshold <= touchStart.value - touchEnd.value <= SwipeThreshold
              || old(isTransitioning)
              ==> currentSlide == old(currentSlide) && isTransitioning == old(isTransitioning)
      ensures Truthy(touchStart) && Truthy(touchEnd) && !old(isTransitioning) ==>
                (touchStart.value - touchEnd.value > SwipeThreshold ==>
                   isTransitioning && currentSlide == Cyclic.Next(old(currentSlide), SlideCount))
                && (touchStart.value - touchEnd.value < -SwipeThreshold ==>
                   isTransitioning && currentSlide == Cyclic.Prev(old(currentSlide), SlideCount))
    {
      if !Truthy(touchStart) || !Truthy(touchEnd) {
        return;
      }
      var distance := touchStart.value - touchEnd.value;
      var isLeftSwipe := distance > SwipeThreshold;
      var isRightSwipe := distance < -SwipeThreshold;
      if isLeftSwipe {
        NextSlide();
      }
      if isRightSwipe {
        PrevSlide();
      }
    }

    /** The "Join" button opens the join form; the form's `onClose` closes it. */
    method SetJoinModalOpen(open: bool)
      modifies this`isJoinModalOpen
      ensures isJoinModalOpen == open
    {
      isJoinModalOpen := open;
    }
  }

  /** Next, then the end of the transition, then Previous: back on the original slide. */
  method NextUnlockPrevRestores(h: Home)
    requires h.Valid() && !h.isTransitioning
    modifies h
    ensures h.Valid() && h.currentSlide == old(h.currentSlide) && h.isTransitioning
  {
    h.NextSlide();
    h.Unlock();
    h.PrevSlide();
    Cyclic.NextPrevInverse(old(h.currentSlide), SlideCount);
  }

  /** While the lock is held, a second Next is ignored: two quick presses move one slide. */
  method DoubleNextMovesOnce(h: Home)
    requires h.Valid() && !h.isTransitioning
    modifies h
    ensures h.currentSlide == Cyclic.Next(old(h.currentSlide), SlideCount)
  {
    h.NextSlide();
    h.NextSlide();
  }

  /** Home.jsx as written: once any slide change has happened, the interval's closure sees the
      lock held, so however many five-second ticks follow (each after the transition ended),
      the carousel no longer advances on its own. */
  method StaleTicksNeverAdvance(h: Home, k: nat)
    requires h.Valid() && h.tickSeesLock
    modifies h
    ensures h.Valid() && h.currentSlide == old(h.currentSlide) && h.tickSeesLock
  {
    var i := 0;
    while i < k
      invariant h.Valid() && h.tickSeesLock && h.currentSlide == old(h.currentSlide)
    {
      h.Unlock();
      h.TimerTick();
      i := i + 1;
    }
  }

  /** Home.jsx as written: from the freshly mounted page, the first tick advances and the next
      one, although the transition has ended, does not. */
  method TimerAdvancesOnlyOnce(h: Home)
    requires h.Valid() && !h.isTransitioning && !h.tickSeesLock
    modifies h
    ensures h.currentSlide == Cyclic.Next(old(h.currentSlide), SlideCount)
  {
    h.TimerTick();
    h.Unlock();
    h.TimerTick();
  }

  /** The evidently intended auto-advance: a tick that reads the current lock is `NextSlide`,
      and then every tick after a finished transition advances one more slide. */
  method FreshTicksKeepAdvancing(h: Home, k: nat)
    requires h.Valid() && !h.isTransitioning
    modifies h
    ensures h.Valid() && !h.isTransitioning
    ensures h.currentSlide == (old(h.currentSlide) + k) % SlideCount
  {
    var i := 0;
    while i < k
      invariant 0 <= i <= k
      invariant h.Valid() && !h.isTransitioning
      invariant h.currentSlide == (old(h.currentSlide) + i) % SlideCount
    {
      h.NextSlide();
      h.Unlock();
      i := i + 1;
    }
  }
}
