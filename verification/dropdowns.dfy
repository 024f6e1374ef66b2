/**
 Operations on the items' `open` flags and their ARIA attributes: the item
 open and close writes, `closeAllDropdowns`, the mobile accordion toggle and
 the desktop hover open.
 */
module Dropdowns {
  import opened NavState

  /**
   Removes `open` and writes the closed ARIA values to whichever of link and
   panel exist.
   */
  function CloseItem(it: Item): (r: Item)
    ensures !r.open && ItemAriaMirrors(r)
    ensures r.hasLink == it.hasLink && r.hasDropdown == it.hasDropdown
    ensures !it.hasLink ==> r.expanded == it.expanded
    ensures !it.hasDropdown ==> r.hidden == it.hidden
  {
    it.(open := false,
        expanded := if it.hasLink then false else it.expanded,
        hidden := if it.hasDropdown then true else it.hidden)
  }

  /**
   Adds `open`, sets the link's `aria-expanded` and, when a panel exists,
   clears its `aria-hidden`. Only items with a link get listeners that open.
   */
  function OpenItem(it: Item): (r: Item)
    requires it.hasLink
    ensures r.open && ItemAriaMirrors(r)
    ensures r.hasLink == it.hasLink && r.hasDropdown == it.hasDropdown
    ensures !it.hasDropdown ==> r.hidden == it.hidden
  {
    it.(open := true, expanded := true, hidden := if it.hasDropdown then false else it.hidden)
  }

  /** The per-item step of `closeAllDropdowns`: only open items are written. */
  function CloseIfOpen(it: Item): Item {
    if it.open then CloseItem(it) else it
  }

  /** `closeAllDropdowns`. */
  function CloseAllDropdowns(s: State): (r: State)
    ensures r.hoverWired == s.hoverWired && r.isMobile == s.isMobile
    ensures r.menuOpen == s.menuOpen && r.burgerExpanded == s.burgerExpanded
    ensures SameShape(s.items, r.items)
    ensures NoneOpen(r.items)
    ensures forall k :: 0 <= k < |s.items| && !s.items[k].open ==> r.items[k] == s.items[k]
    ensures forall k :: 0 <= k < |s.items| && s.items[k].open ==> ItemAriaMirrors(r.items[k])
    ensures OnlyCloses(s, r)
  {
    s.(items := seq(|s.items|, k requires 0 <= k < |s.items| => CloseIfOpen(s.items[k])))
  }

  lemma CloseAllDropdownsIdempotent(s: State)
    ensures CloseAllDropdowns(CloseAllDropdowns(s)) == CloseAllDropdowns(s)
  {
    var once := CloseAllDropdowns(s);
    var twice := CloseAllDropdowns(once);
    assert twice.items == once.items;
  }

  /** Closing all dropdowns keeps the invariant and, from a consistent state, leaves every ARIA attribute consistent. */
  lemma CloseAllDropdownsPreservesInv(s: State)
    requires Inv(s)
    ensures Inv(CloseAllDropdowns(s))
  {
    var r := CloseAllDropdowns(s);
    forall k | 0 <= k < |r.items|
      ensures ItemAriaMirrors(r.items[k])
    {
      assert ItemAriaMirrors(s.items[k]);
    }
  }

  /**
   The mobile accordion toggle of item `i`: every other open item is closed,
   then `i` is closed if it was open before and opened otherwise.
   */
  function ToggleDropdown(s: State, i: nat): (r: State)
    requires i < |s.items| && s.items[i].hasLink
    ensures r.hoverWired == s.hoverWired && r.isMobile == s.isMobile
    ensures r.menuOpen == s.menuOpen && r.burgerExpanded == s.burgerExpanded
    ensures SameShape(s.items, r.items)
    ensures r.items[i].open == !s.items[i].open
    ensures forall k :: 0 <= k < |r.items| && k != i ==> !r.items[k].open
    ensures forall k :: 0 <= k < |s.items| && k != i && !s.items[k].open ==> r.items[k] == s.items[k]
    ensures forall k :: 0 <= k < |s.items| && k != i && s.items[k].open ==> ItemAriaMirrors(r.items[k])
    ensures ItemAriaMirrors(r.items[i])
  {
    var wasOpen := s.items[i].open;
    s.(items := seq(|s.items|, k requires 0 <= k < |s.items| =>
      if k != i then CloseIfOpen(s.items[k])
      else if wasOpen then CloseItem(s.items[k])
      else OpenItem(s.items[k])))
  }

  /**
   The `mouseenter` and `focusin` handlers: all dropdowns are closed, then
   item `i` is opened.
   */
  function OpenOnly(s: State, i: nat): (r: State)
    requires i < |s.items| && s.items[i].hasLink
    ensures r.hoverWired == s.hoverWired && r.isMobile == s.isMobile
    ensures r.menuOpen == s.menuOpen && r.burgerExpanded == s.burgerExpanded
    ensures SameShape(s.items, r.items)
    ensures forall k :: 0 <= k < |r.items| ==> (r.items[k].open <==> k == i)
    ensures forall k :: 0 <= k < |s.items| && k != i && !s.items[k].open ==> r.items[k] == s.items[k]
    ensures forall k :: 0 <= k < |s.items| && k != i && s.items[k].open ==> ItemAriaMirrors(r.items[k])
    ensures ItemAriaMirrors(r.items[i])
  {
    var c := CloseAllDropdowns(s);
    c.(items := c.items[i := OpenItem(c.items[i])])
  }

  /**
   The body of the delayed close callbacks: item `i` loses `open` and its
   closed ARIA values are written, whether or not it was open.
   */
  function CloseOne(s: State, i: nat): (r: State)
    requires i < |s.items|
    ensures OnlyCloses(s, r)
    ensures !r.items[i].open && ItemAriaMirrors(r.items[i])
    ensures forall k :: 0 <= k < |s.items| && k != i ==> r.items[k] == s.items[k]
  {
    s.(items := s.items[i := CloseItem(s.items[i])])
  }
}
