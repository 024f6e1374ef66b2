/**
 The state of the header navigation controller (assets/hamburger.js), with the
 DOM reduced to the booleans the controller reads and writes.
 */
module NavState {

  /** Viewport widths at or below this many CSS pixels get the mobile layout. */
  const Breakpoint: int := 900

  /** The viewport classifier used both at start-up and on every resize. */
  predicate IsMobileWidth(width: int) {
    width <= Breakpoint
  }

  datatype Option<T> = None | Some(value: T)

  /**
   One `.nav__item`. `hasLink` and `hasDropdown` are fixed by the markup (the
   item has a `.nav__link`, the item has a `.dropdown` or `.mega-menu` panel).
   `open` is the item's `open` class, `expanded` its link's `aria-expanded`
   and `hidden` its panel's `aria-hidden`; the last two stand for nothing when
   the link or the panel does not exist.
   */
  datatype Item = Item(hasLink: bool, hasDropdown: bool, open: bool, expanded: bool, hidden: bool)

  /**
   The controller's state. `menuOpen` is `isMenuOpen` together with the nav
   list's `nav__list--open` class, and `burgerExpanded` the hamburger's
   `active` class together with its `aria-expanded`: each pair is always
   written at the same time. `hoverWired` records whether the desktop hover
   and focus listeners were attached, which happens once, at start-up.
   */
  datatype State = State(
    hoverWired: bool,
    isMobile: bool,
    menuOpen: bool,
    burgerExpanded: bool,
    items: seq<Item>)

  /** Item `i` exists and carries the `open` class. */
  predicate IsOpen(items: seq<Item>, i: int) {
    0 <= i < |items| && items[i].open
  }

  predicate NoneOpen(items: seq<Item>) {
    forall k :: 0 <= k < |items| ==> !items[k].open
  }

  predicate AtMostOneOpen(items: seq<Item>) {
    forall j, k :: 0 <= j < |items| && 0 <= k < |items| && items[j].open && items[k].open ==> j == k
  }

  /** Only items with both a link and a panel are ever open. */
  predicate OnlyDropdownItemsOpen(items: seq<Item>) {
    forall k :: 0 <= k < |items| && items[k].open ==> items[k].hasLink && items[k].hasDropdown
  }

  /** The link's `aria-expanded` and the panel's `aria-hidden` agree with the `open` class. */
  predicate ItemAriaMirrors(it: Item) {
    && (it.hasLink ==> it.expanded == it.open)
    && (it.hasDropdown ==> it.hidden == !it.open)
  }

  /** Every ARIA attribute the controller writes agrees with the state it reflects. */
  predicate AriaMirrors(s: State) {
    && s.burgerExpanded == s.menuOpen
    && forall k :: 0 <= k < |s.items| ==> ItemAriaMirrors(s.items[k])
  }

  /** The invariant every event preserves. */
  predicate Inv(s: State) {
    && AtMostOneOpen(s.items)
    && OnlyDropdownItemsOpen(s.items)
    && AriaMirrors(s)
  }

  /** The same items, in the same order, with the same fixed structure. */
  predicate SameShape(a: seq<Item>, b: seq<Item>) {
    && |a| == |b|
    && forall k :: 0 <= k < |a| ==> a[k].hasLink == b[k].hasLink && a[k].hasDropdown == b[k].hasDropdown
  }

  /** `r` differs from `s` only in items that `r` no longer has open. */
  predicate OnlyCloses(s: State, r: State) {
    && r.hoverWired == s.hoverWired
    && r.isMobile == s.isMobile
    && r.menuOpen == s.menuOpen
    && r.burgerExpanded == s.burgerExpanded
    && SameShape(s.items, r.items)
    && forall k :: 0 <= k < |s.items| && r.items[k] != s.items[k] ==> !r.items[k].open
  }
}
