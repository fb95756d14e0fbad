/** The site navigation bar: the scroll-driven show/hide behaviour, the dropdown menus and
    the mobile menu. */
module Navbar {
  import opened Wrappers

  /** Scrolled further than this, the bar gets its solid background. */
  const ScrolledThreshold: int := 10
  /** Scrolling down hides the bar only once further than this from the top. */
  const HideThreshold: int := 100

  /** `activeDropdown === key ? null : key` */
  function Toggled(active: Option<string>, key: string): (r: Option<string>)
    ensures active == Some(key) ==> r == None
    ensures active != Some(key) ==> r == Some(key)
  {
    if active == Some(key) then None else Some(key)
  }

  /** Toggling the same menu twice restores the open menu when it was that one, and
      otherwise leaves every menu closed. */
  lemma ToggleTwice(active: Option<string>, key: string)
    ensures Toggled(Toggled(active, key), key) == if active == Some(key) then active else None
  {
  }

  class NavigationBar {
    var isScrolled: bool
    var isMobileMenuOpen: bool
    var activeDropdown: Option<string>
    var isVisible: bool
    var lastScrollY: int

    /** The background tracks the last position, and the bar is hidden only below the top
        100 pixels. */
    ghost predicate Valid()
      reads this
    {
      (isScrolled <==> lastScrollY > ScrolledThreshold) && (!isVisible ==> lastScrollY > HideThreshold)
    }

    constructor ()
      ensures Valid()
      ensures !isScrolled && !isMobileMenuOpen && activeDropdown == None && isVisible && lastScrollY == 0
    {
      isScrolled, isMobileMenuOpen, activeDropdown := false, false, None;
      isVisible, lastScrollY := true, 0;
    }

    /** `handleScroll` with `window.scrollY == y` */
    method HandleScroll(y: int)
      requires Valid()
      modifies this`isScrolled, this`isVisible, this`lastScrollY
      ensures Valid()
      ensures isScrolled <==> y > ScrolledThreshold
      ensures y > old(lastScrollY) && y > HideThreshold ==> !isVisible
      ensures y < old(lastScrollY) ==> isVisible
      ensures y == old(lastScrollY) || (y > old(lastScrollY) && y <= HideThreshold) ==> isVisible == old(isVisible)
      ensures lastScrollY == y
    {
      isScrolled := y > ScrolledThreshold;
      if y > lastScrollY && y > HideThreshold {
        isVisible := false;
      } else if y < lastScrollY {
        isVisible := true;
      }
      lastScrollY := y;
    }

    /** `handleDropdownToggle(key)`, from a click on a menu title. */
    method DropdownToggle(key: string)
      modifies this`activeDropdown
      ensures activeDropdown == Toggled(old(activeDropdown), key)
    {
      activeDropdown := Toggled(activeDropdown, key);
    }

    /** The mouse entering a menu title opens that menu. */
    method DropdownHover(key: string)
      modifies this`activeDropdown
      ensures activeDropdown == Some(key)
    {
      activeDropdown := Some(key);
    }

    /** `handleDropdownClose`, when the mouse leaves an open menu. */
    method DropdownClose()
      modifies this`activeDropdown
      ensures activeDropdown == None
    {
      activeDropdown := None;
    }

    /** The mobile menu button. */
    method ToggleMobileMenu()
      modifies this`isMobileMenuOpen
      ensures isMobileMenuOpen == !old(isMobileMenuOpen)
    {
      isMobileMenuOpen := !isMobileMenuOpen;
    }
  }
}
