/**
 The event listeners of assets/hamburger.js, one function per listener, each
 taking the hit-tests and focus checks it makes as boolean inputs.
 */
module Handlers {
  import opened NavState
  import opened Dropdowns
  import opened MobileMenu

  datatype Key = EnterKey | SpaceKey | EscapeKey | OtherKey

  /** Enter and Space activate the hamburger and the links. */
  predicate Activates(k: Key) {
    k == EnterKey || k == SpaceKey
  }

  /**
   Item `i` carries the hover and focus listeners: it has a link and a panel
   and the page started in desktop mode. Whether the page is mobile NOW plays
   no part.
   */
  predicate HoverWired(s: State, i: nat) {
    s.hoverWired && i < |s.items| && s.items[i].hasLink && s.items[i].hasDropdown
  }

  /** Item `i` has a link, so its click and keydown listeners exist. */
  predicate HasLinkListeners(s: State, i: nat) {
    i < |s.items| && s.items[i].hasLink
  }

  /** The hamburger's own keydown listener (the document's runs after it). */
  function OnHamburgerKey(s: State, k: Key): (r: State)
    ensures Activates(k) ==> r.menuOpen == !s.menuOpen && r.burgerExpanded == r.menuOpen
    ensures k == EscapeKey ==> !r.menuOpen
    ensures k == EscapeKey && s.menuOpen ==> NoneOpen(r.items) && !r.burgerExpanded
    ensures (k == EscapeKey && !s.menuOpen) || k == OtherKey ==> r == s
    ensures r.hoverWired == s.hoverWired && r.isMobile == s.isMobile && SameShape(s.items, r.items)
  {
    if Activates(k) then ToggleMobileMenu(s)
    else if k == EscapeKey && s.menuOpen then CloseMobileMenu(s)
    else s
  }

  /**
   The document's click listener. `inHeader`: the target is inside
   `.header__inner`; `inItem`: the target is inside a nav item or a panel.
   */
  function OnDocumentClick(s: State, inHeader: bool, inItem: bool): (r: State)
    ensures s.isMobile && s.menuOpen && !inHeader ==> !r.menuOpen && NoneOpen(r.items)
    ensures !s.isMobile && !inItem ==> OnlyCloses(s, r) && NoneOpen(r.items)
    ensures (s.isMobile && !(s.menuOpen && !inHeader)) || (!s.isMobile && inItem) ==> r == s
    ensures r.hoverWired == s.hoverWired && r.isMobile == s.isMobile && SameShape(s.items, r.items)
  {
    var afterMenu := if s.isMobile && s.menuOpen && !inHeader then CloseMobileMenu(s) else s;
    if !afterMenu.isMobile && !inItem then CloseAllDropdowns(afterMenu) else afterMenu
  }

  /** The document's keydown listener: only Escape does anything. */
  function OnDocumentKey(s: State, k: Key): (r: State)
    ensures k == EscapeKey && s.isMobile && s.menuOpen ==> !r.menuOpen && !r.burgerExpanded && NoneOpen(r.items)
    ensures k == EscapeKey && !(s.isMobile && s.menuOpen) ==> OnlyCloses(s, r) && NoneOpen(r.items)
    ensures k != EscapeKey ==> r == s
    ensures r.hoverWired == s.hoverWired && r.isMobile == s.isMobile && SameShape(s.items, r.items)
  {
    if k != EscapeKey then s
    else if s.isMobile && s.menuOpen then CloseMobileMenu(s)
    else CloseAllDropdowns(s)
  }

  /**
   The click listener on item `i`'s link: the mobile accordion for items with
   a panel, closing the menu for plain links on mobile, nothing on desktop.
   */
  function OnLinkClick(s: State, i: nat): (r: State)
    ensures r.hoverWired == s.hoverWired && r.isMobile == s.isMobile && SameShape(s.items, r.items)
    ensures !HasLinkListeners(s, i) || !s.isMobile ==> r == s
    ensures HasLinkListeners(s, i) && s.isMobile && s.items[i].hasDropdown ==>
      && r.menuOpen == s.menuOpen && r.burgerExpanded == s.burgerExpanded
      && r.items[i].open == !s.items[i].open
      && (forall k :: 0 <= k < |r.items| && k != i ==> !r.items[k].open)
    ensures HasLinkListeners(s, i) && s.isMobile && !s.items[i].hasDropdown ==>
      !r.menuOpen && NoneOpen(r.items)
  {
    if !HasLinkListeners(s, i) then s
    else if s.isMobile && s.items[i].hasDropdown then ToggleDropdown(s, i)
    else if s.isMobile then CloseMobileMenu(s)
    else s
  }

  /**
   Whether the link click stops propagation, so that the document's click
   listener does not see it.
   */
  predicate LinkClickStops(s: State, i: nat) {
    HasLinkListeners(s, i) && s.isMobile && s.items[i].hasDropdown
  }

  /**
   The keydown listener on item `i`'s link: Enter or Space on a mobile
   dropdown link re-dispatches a click on the link.
   */
  function OnLinkKey(s: State, i: nat, k: Key): (r: State)
    ensures r.hoverWired == s.hoverWired && r.isMobile == s.isMobile && SameShape(s.items, r.items)
    ensures Activates(k) && LinkClickStops(s, i) ==> r.items[i].open == !s.items[i].open
    ensures !(Activates(k) && LinkClickStops(s, i)) ==> r == s
    ensures r.menuOpen == s.menuOpen
  {
    if Activates(k) && LinkClickStops(s, i) then OnLinkClick(s, i) else s
  }

  /** The `mouseenter` and `focusin` listeners of item `i`. */
  function OnHoverIn(s: State, i: nat): (r: State)
    ensures HoverWired(s, i) ==> forall k :: 0 <= k < |r.items| ==> (r.items[k].open <==> k == i)
    ensures !HoverWired(s, i) ==> r == s
    ensures r.menuOpen == s.menuOpen && r.burgerExpanded == s.burgerExpanded
    ensures r.hoverWired == s.hoverWired && r.isMobile == s.isMobile && SameShape(s.items, r.items)
  {
    if HoverWired(s, i) then OpenOnly(s, i) else s
  }

  /**
   A delayed close callback of item `i` firing: the item closes unless
   `stillInside` (the pointer is over the item or its panel, or focus is
   inside them). The panel's `mouseleave` callback checks nothing, so it
   fires with `stillInside` false.
   */
  function OnDelayedClose(s: State, i: nat, stillInside: bool): (r: State)
    ensures OnlyCloses(s, r)
    ensures HoverWired(s, i) && !stillInside ==> !r.items[i].open
    ensures !HoverWired(s, i) || stillInside ==> r == s
  {
    if HoverWired(s, i) && !stillInside then CloseOne(s, i) else s
  }

  /**
   `handleResize` for a viewport now `width` pixels wide: crossing to desktop
   closes the menu and the dropdowns, crossing to mobile closes the dropdowns
   only, and staying on one side changes nothing.
   */
  function OnResize(s: State, width: int): (r: State)
    ensures r.isMobile <==> width <= Breakpoint
    ensures s.isMobile && !r.isMobile ==> !r.menuOpen && !r.burgerExpanded && NoneOpen(r.items)
    ensures !s.isMobile && r.isMobile ==>
      r.menuOpen == s.menuOpen && r.burgerExpanded == s.burgerExpanded && NoneOpen(r.items)
    ensures s.isMobile == IsMobileWidth(width) ==> r == s
    ensures r.hoverWired == s.hoverWired && SameShape(s.items, r.items)
  {
    var wasMobile := s.isMobile;
    var now := s.(isMobile := IsMobileWidth(width));
    if wasMobile && !now.isMobile then CloseAllDropdowns(CloseMobileMenu(now))
    else if !wasMobile && now.isMobile then CloseAllDropdowns(now)
    else now
  }
}
