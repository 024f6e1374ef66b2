/**
 A reference description of the controller with the DOM gone: the mode, the
 menu flag and at most one active dropdown. The concrete controller is
 proved to follow it event for event.
 */
module Reference {
  import opened NavState
  import opened Dropdowns
  import opened MobileMenu
  import opened Handlers
  import opened Controller

  /** What the markup fixes about one item. */
  datatype Kind = Kind(hasLink: bool, hasDropdown: bool)

  /** What never changes after start-up. */
  datatype Layout = Layout(hoverWired: bool, kinds: seq<Kind>)

  /** The reference state: `active` is the one item whose dropdown is open, if any. */
  datatype Menu = Menu(isMobile: bool, menuOpen: bool, active: Option<nat>)

  function LayoutOf(s: State): Layout {
    Layout(s.hoverWired, seq(|s.items|, k requires 0 <= k < |s.items| => Kind(s.items[k].hasLink, s.items[k].hasDropdown)))
  }

  predicate Linked(l: Layout, i: nat) {
    i < |l.kinds| && l.kinds[i].hasLink
  }

  predicate Wired(l: Layout, i: nat) {
    l.hoverWired && Linked(l, i) && l.kinds[i].hasDropdown
  }

  function Collapse(m: Menu): Menu {
    m.(active := None)
  }

  function CloseMenu(m: Menu): Menu {
    m.(menuOpen := false, active := None)
  }

  function ToggleMenu(m: Menu): Menu {
    if m.menuOpen then CloseMenu(m) else m.(menuOpen := true)
  }

  function Escape(m: Menu): Menu {
    if m.isMobile && m.menuOpen then CloseMenu(m) else Collapse(m)
  }

  /** The accordion: the active item becomes inactive, any other item becomes the active one. */
  function Toggle(m: Menu, i: nat): Menu {
    m.(active := if m.active == Some(i) then None else Some(i))
  }

  /** The reference transition. */
  function Next(l: Layout, m: Menu, e: Event): Menu {
    match e
    case HamburgerClick =>
      ToggleMenu(m)
    case HamburgerKeydown(k) =>
      if Activates(k) then ToggleMenu(m)
      else if k == EscapeKey then CloseMenu(m)
      else m
    case DocumentClick(inHeader, inItem) =>
      var m1 := if m.isMobile && m.menuOpen && !inHeader then CloseMenu(m) else m;
      if !m.isMobile && !inItem then Collapse(m1) else m1
    case DocumentKeydown(k) =>
      if k == EscapeKey then Escape(m) else m
    case LinkClick(i) =>
      if !Linked(l, i) || !m.isMobile then m
      else if l.kinds[i].hasDropdown then Toggle(m, i)
      else CloseMenu(m)
    case LinkKeydown(i, k) =>
      if k == EscapeKey then Escape(m)
      else if Activates(k) && Linked(l, i) && m.isMobile && l.kinds[i].hasDropdown then Toggle(m, i)
      else m
    case MouseEnter(i) =>
      if Wired(l, i) then m.(active := Some(i)) else m
    case FocusIn(i) =>
      if Wired(l, i) then m.(active := Some(i)) else m
    case ItemLeaveTimeout(i, pointerOver) =>
      if Wired(l, i) && !pointerOver && m.active == Some(i) then Collapse(m) else m
    case PanelLeaveTimeout(i) =>
      if Wired(l, i) && m.active == Some(i) then Collapse(m) else m
    case FocusOutTimeout(i, focusInside) =>
      if Wired(l, i) && !focusInside && m.active == Some(i) then Collapse(m) else m
    case Resize(width) =>
      var mobile := IsMobileWidth(width);
      if m.isMobile && !mobile then Menu(false, false, None)
      else if !m.isMobile && mobile then Menu(true, m.menuOpen, None)
      else m
  }

  function Replay(l: Layout, m: Menu, events: seq<Event>): Menu
    decreases |events|
  {
    if events == [] then m else Replay(l, Next(l, m, events[0]), events[1..])
  }

  /** Exactly the item `active` names is open. */
  predicate OpenExactly(items: seq<Item>, active: Option<nat>) {
    && (active.Some? ==> active.value < |items|)
    && forall k :: 0 <= k < |items| ==> (items[k].open <==> active == Some(k))
  }

  /** The concrete state `s` is described by the reference state `m`. */
  predicate Refines(s: State, m: Menu) {
    && s.isMobile == m.isMobile
    && s.menuOpen == m.menuOpen
    && OpenExactly(s.items, m.active)
  }

  /** Any state with at most one open item has a reference description. */
  lemma AbstractionExists(s: State)
    requires AtMostOneOpen(s.items)
    ensures exists m :: Refines(s, m)
  {
    if k :| 0 <= k < |s.items| && s.items[k].open {
      assert Refines(s, Menu(s.isMobile, s.menuOpen, Some(k)));
    } else {
      assert Refines(s, Menu(s.isMobile, s.menuOpen, None));
    }
  }

  /** A reference description forces at most one open item. */
  lemma RefinesAtMostOne(s: State, m: Menu)
    requires Refines(s, m)
    ensures AtMostOneOpen(s.items)
  {
  }

  lemma StepKeepsLayout(s: State, e: Event)
    ensures LayoutOf(Step(s, e)) == LayoutOf(s)
  {
    StepKeepsStructure(s, e);
    assert LayoutOf(Step(s, e)).kinds == LayoutOf(s).kinds;
  }

  // One lemma per listener, each relating it to its reference counterpart.

  lemma CollapseRefines(s: State, m: Menu)
    requires Refines(s, m)
    ensures Refines(CloseAllDropdowns(s), Collapse(m))
  {
  }

  lemma CloseMenuRefines(s: State, m: Menu)
    requires Refines(s, m)
    ensures Refines(CloseMobileMenu(s), CloseMenu(m))
  {
  }

  lemma ToggleMenuRefines(s: State, m: Menu)
    requires Refines(s, m)
    ensures Refines(ToggleMobileMenu(s), ToggleMenu(m))
  {
  }

  lemma DocumentKeyRefines(s: State, m: Menu, k: Key)
    requires Refines(s, m)
    ensures Refines(OnDocumentKey(s, k), if k == EscapeKey then Escape(m) else m)
  {
  }

  lemma HamburgerKeyRefines(s: State, m: Menu, k: Key)
    requires Refines(s, m)
    ensures Refines(OnDocumentKey(OnHamburgerKey(s, k), k),
                    if Activates(k) then ToggleMenu(m) else if k == EscapeKey then CloseMenu(m) else m)
  {
    var h := OnHamburgerKey(s, k);
    var hm := if Activates(k) then ToggleMenu(m) else if k == EscapeKey && m.menuOpen then CloseMenu(m) else m;
    assert Refines(h, hm);
    DocumentKeyRefines(h, hm, k);
  }

  lemma DocumentClickRefines(s: State, m: Menu, inHeader: bool, inItem: bool)
    requires Refines(s, m)
    ensures Refines(OnDocumentClick(s, inHeader, inItem), Next(LayoutOf(s), m, DocumentClick(inHeader, inItem)))
  {
  }

  lemma LinkClickRefines(s: State, m: Menu, i: nat)
    requires Refines(s, m)
    ensures Refines(OnLinkClick(s, i), Next(LayoutOf(s), m, LinkClick(i)))
  {
  }

  lemma LinkKeyRefines(s: State, m: Menu, i: nat, k: Key)
    requires Refines(s, m)
    ensures Refines(OnDocumentKey(OnLinkKey(s, i, k), k), Next(LayoutOf(s), m, LinkKeydown(i, k)))
  {
    var h := OnLinkKey(s, i, k);
    var hm := if Activates(k) && LinkClickStops(s, i) then Toggle(m, i) else m;
    assert Refines(h, hm);
    DocumentKeyRefines(h, hm, k);
  }

  lemma HoverInRefines(s: State, m: Menu, i: nat)
    requires Refines(s, m)
    ensures Refines(OnHoverIn(s, i), if Wired(LayoutOf(s), i) then m.(active := Some(i)) else m)
  {
  }

  lemma DelayedCloseRefines(s: State, m: Menu, i: nat, stillInside: bool)
    requires Refines(s, m)
    ensures Refines(OnDelayedClose(s, i, stillInside),
                    if Wired(LayoutOf(s), i) && !stillInside && m.active == Some(i) then Collapse(m) else m)
  {
  }

  lemma ResizeRefines(s: State, m: Menu, width: int)
    requires Refines(s, m)
    ensures Refines(OnResize(s, width), Next(LayoutOf(s), m, Resize(width)))
  {
  }

  /** Each event moves the concrete controller exactly as the reference machine moves. */
  lemma StepRefines(s: State, m: Menu, e: Event)
    requires Refines(s, m)
    ensures Refines(Step(s, e), Next(LayoutOf(s), m, e))
  {
    match e
    case HamburgerClick =>
      ToggleMenuRefines(s, m);
    case HamburgerKeydown(k) =>
      HamburgerKeyRefines(s, m, k);
    case DocumentClick(inHeader, inItem) =>
      DocumentClickRefines(s, m, inHeader, inItem);
    case DocumentKeydown(k) =>
      DocumentKeyRefines(s, m, k);
    case LinkClick(i) =>
      LinkClickRefines(s, m, i);
    case LinkKeydown(i, k) =>
      LinkKeyRefines(s, m, i, k);
    case MouseEnter(i) =>
      HoverInRefines(s, m, i);
    case FocusIn(i) =>
      HoverInRefines(s, m, i);
    case ItemLeaveTimeout(i, pointerOver) =>
      DelayedCloseRefines(s, m, i, pointerOver);
    case PanelLeaveTimeout(i) =>
      DelayedCloseRefines(s, m, i, false);
    case FocusOutTimeout(i, focusInside) =>
      DelayedCloseRefines(s, m, i, focusInside);
    case Resize(width) =>
      ResizeRefines(s, m, width);
  }

  lemma {:induction false} RunRefines(s: State, m: Menu, events: seq<Event>)
    requires Refines(s, m)
    ensures Refines(Run(s, events), Replay(LayoutOf(s), m, events))
    decreases |events|
  {
    if events != [] {
      StepRefines(s, m, events[0]);
      StepKeepsLayout(s, events[0]);
      RunRefines(Step(s, events[0]), Next(LayoutOf(s), m, events[0]), events[1..]);
    }
  }

  function LayoutOfMarkup(width: int, markup: seq<Markup>): Layout {
    Layout(!IsMobileWidth(width), seq(|markup|, k requires 0 <= k < |markup| => Kind(markup[k].hasLink, markup[k].hasDropdown)))
  }

  /**
   From start-up, whatever the page delivers, the open items are exactly the
   one the reference machine names, and the mode and menu flag agree with it.
   */
  lemma ControllerFollowsReference(width: int, markup: seq<Markup>, events: seq<Event>)
    ensures Refines(Run(Init(width, markup), events),
                    Replay(LayoutOfMarkup(width, markup), Menu(IsMobileWidth(width), false, None), events))
  {
    var s := Init(width, markup);
    assert LayoutOf(s) == LayoutOfMarkup(width, markup);
    RunRefines(s, Menu(IsMobileWidth(width), false, None), events);
  }
}
