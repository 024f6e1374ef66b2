/**
 The slide-out menu: `openMobileMenu`, `closeMobileMenu` and
 `toggleMobileMenu`. The hamburger and the nav list are assumed present.
 */
module MobileMenu {
  import opened NavState
  import opened Dropdowns

  /** `openMobileMenu`: the items are not touched. */
  function OpenMobileMenu(s: State): (r: State)
    ensures r.menuOpen && r.burgerExpanded
    ensures r.hoverWired == s.hoverWired && r.isMobile == s.isMobile
    ensures r.items == s.items
  {
    s.(menuOpen := true, burgerExpanded := true)
  }

  /** `closeMobileMenu`: the menu closes and so does every dropdown. */
  function CloseMobileMenu(s: State): (r: State)
    ensures !r.menuOpen && !r.burgerExpanded
    ensures r.hoverWired == s.hoverWired && r.isMobile == s.isMobile
    ensures SameShape(s.items, r.items)
    ensures NoneOpen(r.items)
    ensures forall k :: 0 <= k < |s.items| && !s.items[k].open ==> r.items[k] == s.items[k]
    ensures forall k :: 0 <= k < |s.items| && s.items[k].open ==> ItemAriaMirrors(r.items[k])
  {
    CloseAllDropdowns(s.(menuOpen := false, burgerExpanded := false))
  }

  /** `toggleMobileMenu`. */
  function ToggleMobileMenu(s: State): (r: State)
    ensures r.menuOpen == !s.menuOpen
    ensures r.burgerExpanded == r.menuOpen
    ensures r.hoverWired == s.hoverWired && r.isMobile == s.isMobile
    ensures SameShape(s.items, r.items)
    ensures s.menuOpen ==> NoneOpen(r.items)
    ensures !s.menuOpen ==> r.items == s.items
  {
    if s.menuOpen then CloseMobileMenu(s) else OpenMobileMenu(s)
  }

  lemma CloseMobileMenuIdempotent(s: State)
    ensures CloseMobileMenu(CloseMobileMenu(s)) == CloseMobileMenu(s)
  {
    var once := CloseMobileMenu(s);
    assert CloseMobileMenu(once).items == once.items;
  }

  /** Closing right after opening is the same as closing: opening wrote nothing closing keeps. */
  lemma CloseUndoesOpen(s: State)
    ensures CloseMobileMenu(OpenMobileMenu(s)) == CloseMobileMenu(s)
  {
  }

  /** `closeAllDropdowns` after `closeMobileMenu` adds nothing. */
  lemma CloseAllAfterCloseMenu(s: State)
    ensures CloseAllDropdowns(CloseMobileMenu(s)) == CloseMobileMenu(s)
  {
    CloseAllDropdownsIdempotent(s.(menuOpen := false, burgerExpanded := false));
  }

  /**
   Toggling twice returns to the starting menu state and has collapsed every
   dropdown on the way (one of the two toggles is a close).
   */
  lemma ToggleTwice(s: State)
    requires s.burgerExpanded == s.menuOpen
    ensures ToggleMobileMenu(ToggleMobileMenu(s)) == CloseAllDropdowns(s)
  {
    var r := ToggleMobileMenu(ToggleMobileMenu(s));
    var c := CloseAllDropdowns(s);
    assert r.items == c.items;
  }

  lemma CloseMobileMenuPreservesInv(s: State)
    requires Inv(s)
    ensures Inv(CloseMobileMenu(s))
  {
    var r := CloseMobileMenu(s);
    forall k | 0 <= k < |r.items|
      ensures ItemAriaMirrors(r.items[k])
    {
      assert ItemAriaMirrors(s.items[k]);
    }
  }

  lemma ToggleMobileMenuPreservesInv(s: State)
    requires Inv(s)
    ensures Inv(ToggleMobileMenu(s))
  {
    if s.menuOpen {
      CloseMobileMenuPreservesInv(s);
    }
  }
}
