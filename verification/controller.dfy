/**
 The controller as a whole: start-up from the page's markup, the events the
 page delivers, and what holds after any sequence of them.
 */
module Controller {
  import opened NavState
  import opened Dropdowns
  import opened MobileMenu
  import opened Handlers

  /**
   One `.nav__item` as the markup has it at load: whether it has a link and a
   panel, and the link's `aria-expanded` and the panel's `aria-hidden`
   attributes if the markup already sets them.
   */
  datatype Markup = Markup(hasLink: bool, hasDropdown: bool, expandedAttr: Option<bool>, hiddenAttr: Option<bool>)

  /**
   The start-up pass over one item: a missing `aria-expanded` on the link
   becomes false and a missing `aria-hidden` on the panel becomes true; an
   attribute the markup already sets is kept. For an item with a link the
   panel default is written by the per-item setup; for an item without one
   the early return skips that, and the final pass over every panel writes it.
   */
  function SetUpItem(m: Markup): (it: Item)
    ensures it.hasLink == m.hasLink && it.hasDropdown == m.hasDropdown && !it.open
    ensures it.hasLink ==> (it.expanded <==> m.expandedAttr == Some(true))
    ensures it.hasDropdown ==> (it.hidden <==> m.hiddenAttr != Some(false))
  {
    Item(m.hasLink, m.hasDropdown, false,
         match m.expandedAttr { case Some(v) => v case None => false },
         if !m.hasDropdown then false else match m.hiddenAttr { case Some(v) => v case None => true })
  }

  /** The markup's own ARIA attributes, where present, describe a closed item. */
  predicate MarkupClosed(m: Markup) {
    && (m.hasLink ==> m.expandedAttr != Some(true))
    && (m.hasDropdown ==> m.hiddenAttr != Some(false))
  }

  /**
   `initHeader` on a page `width` pixels wide: the mode is classified, the
   hover listeners are attached only in desktop mode, the menu is closed.
   The markup is taken to carry no `open` class and an inactive hamburger.
   */
  function Init(width: int, markup: seq<Markup>): (s: State)
    ensures s.isMobile <==> width <= Breakpoint
    ensures s.hoverWired <==> !s.isMobile
    ensures !s.menuOpen && !s.burgerExpanded && NoneOpen(s.items)
    ensures |s.items| == |markup|
    ensures forall k :: 0 <= k < |markup| ==>
      s.items[k].hasLink == markup[k].hasLink && s.items[k].hasDropdown == markup[k].hasDropdown
  {
    var mobile := IsMobileWidth(width);
    State(!mobile, mobile, false, false, seq(|markup|, k requires 0 <= k < |markup| => SetUpItem(markup[k])))
  }

  /** The start-up state satisfies the invariant exactly when the markup's own ARIA attributes describe closed items. */
  lemma InitInvIff(width: int, markup: seq<Markup>)
    ensures Inv(Init(width, markup)) <==> forall k :: 0 <= k < |markup| ==> MarkupClosed(markup[k])
  {
    var s := Init(width, markup);
    if forall k :: 0 <= k < |markup| ==> MarkupClosed(markup[k]) {
      forall k | 0 <= k < |s.items|
        ensures ItemAriaMirrors(s.items[k])
      {
        assert MarkupClosed(markup[k]);
      }
    } else {
      var k :| 0 <= k < |markup| && !MarkupClosed(markup[k]);
      assert !ItemAriaMirrors(s.items[k]);
    }
  }

  /** The `handleResize` call at the end of start-up sees the same width and changes nothing. */
  lemma InitialResizeIsInert(width: int, markup: seq<Markup>)
    ensures OnResize(Init(width, markup), width) == Init(width, markup)
  {
  }

  /**
   The events the page delivers to the controller. Keydown events on the
   hamburger and on a link reach the document's keydown listener afterwards.
   A delayed close callback may fire at any time, whether or not a leave
   event scheduled it, with the hover or focus check it makes as an input.
   `Resize` stands for both the debounced `resize` listener and the
   `orientationchange` listener, which call the same `handleResize`.
   */
  datatype Event =
    | HamburgerClick
    | HamburgerKeydown(key: Key)
    | DocumentClick(inHeader: bool, inItem: bool)
    | DocumentKeydown(key: Key)
    | LinkClick(i: nat)
    | LinkKeydown(i: nat, key: Key)
    | MouseEnter(i: nat)
    | FocusIn(i: nat)
    | ItemLeaveTimeout(i: nat, pointerOver: bool)
    | PanelLeaveTimeout(i: nat)
    | FocusOutTimeout(i: nat, focusInside: bool)
    | Resize(width: int)

  predicate IsDelayedClose(e: Event) {
    e.ItemLeaveTimeout? || e.PanelLeaveTimeout? || e.FocusOutTimeout?
  }

  function Step(s: State, e: Event): State {
    match e
    case HamburgerClick => ToggleMobileMenu(s)
    case HamburgerKeydown(k) => OnDocumentKey(OnHamburgerKey(s, k), k)
    case DocumentClick(inHeader, inItem) => OnDocumentClick(s, inHeader, inItem)
    case DocumentKeydown(k) => OnDocumentKey(s, k)
    case LinkClick(i) => OnLinkClick(s, i)
    case LinkKeydown(i, k) => OnDocumentKey(OnLinkKey(s, i, k), k)
    case MouseEnter(i) => OnHoverIn(s, i)
    case FocusIn(i) => OnHoverIn(s, i)
    case ItemLeaveTimeout(i, pointerOver) => OnDelayedClose(s, i, pointerOver)
    case PanelLeaveTimeout(i) => OnDelayedClose(s, i, false)
    case FocusOutTimeout(i, focusInside) => OnDelayedClose(s, i, focusInside)
    case Resize(width) => OnResize(s, width)
  }

  function Run(s: State, events: seq<Event>): State
    decreases |events|
  {
    if events == [] then s else Run(Step(s, events[0]), events[1..])
  }

  // ---------------------------------------------------------------------------
  // The invariant, event by event

  lemma OnLinkClickPreservesInv(s: State, i: nat)
    requires Inv(s)
    ensures Inv(OnLinkClick(s, i))
  {
    var r := OnLinkClick(s, i);
    if LinkClickStops(s, i) {
      forall k | 0 <= k < |r.items|
        ensures ItemAriaMirrors(r.items[k])
      {
        assert ItemAriaMirrors(s.items[k]);
      }
    } else if HasLinkListeners(s, i) && s.isMobile {
      CloseMobileMenuPreservesInv(s);
    }
  }

  lemma OnHoverInPreservesInv(s: State, i: nat)
    requires Inv(s)
    ensures Inv(OnHoverIn(s, i))
  {
    var r := OnHoverIn(s, i);
    if HoverWired(s, i) {
      forall k | 0 <= k < |r.items|
        ensures ItemAriaMirrors(r.items[k])
      {
        assert ItemAriaMirrors(s.items[k]);
      }
    }
  }

  lemma OnDelayedClosePreservesInv(s: State, i: nat, stillInside: bool)
    requires Inv(s)
    ensures Inv(OnDelayedClose(s, i, stillInside))
  {
    var r := OnDelayedClose(s, i, stillInside);
    forall k | 0 <= k < |r.items|
      ensures ItemAriaMirrors(r.items[k])
    {
      assert ItemAriaMirrors(s.items[k]);
    }
  }

  lemma OnDocumentKeyPreservesInv(s: State, k: Key)
    requires Inv(s)
    ensures Inv(OnDocumentKey(s, k))
  {
    if k == EscapeKey {
      if s.isMobile && s.menuOpen {
        CloseMobileMenuPreservesInv(s);
      } else {
        CloseAllDropdownsPreservesInv(s);
      }
    }
  }

  lemma OnResizePreservesInv(s: State, width: int)
    requires Inv(s)
    ensures Inv(OnResize(s, width))
  {
    var now := s.(isMobile := IsMobileWidth(width));
    assert Inv(now);
    if s.isMobile && !now.isMobile {
      CloseMobileMenuPreservesInv(now);
      CloseAllDropdownsPreservesInv(CloseMobileMenu(now));
    } else if !s.isMobile && now.isMobile {
      CloseAllDropdownsPreservesInv(now);
    }
  }

  /** Every event keeps at most one item open, only dropdown items open, and all ARIA attributes consistent. */
  lemma StepPreservesInv(s: State, e: Event)
    requires Inv(s)
    ensures Inv(Step(s, e))
  {
    match e
    case HamburgerClick =>
      ToggleMobileMenuPreservesInv(s);
    case HamburgerKeydown(k) =>
      var h := OnHamburgerKey(s, k);
      if Activates(k) {
        ToggleMobileMenuPreservesInv(s);
      } else if k == EscapeKey && s.menuOpen {
        CloseMobileMenuPreservesInv(s);
      }
      OnDocumentKeyPreservesInv(h, k);
    case DocumentClick(inHeader, inItem) =>
      var afterMenu := if s.isMobile && s.menuOpen && !inHeader then CloseMobileMenu(s) else s;
      if s.isMobile && s.menuOpen && !inHeader {
        CloseMobileMenuPreservesInv(s);
      }
      if !afterMenu.isMobile && !inItem {
        CloseAllDropdownsPreservesInv(afterMenu);
      }
    case DocumentKeydown(k) =>
      OnDocumentKeyPreservesInv(s, k);
    case LinkClick(i) =>
      OnLinkClickPreservesInv(s, i);
    case LinkKeydown(i, k) =>
      OnLinkClickPreservesInv(s, i);
      OnDocumentKeyPreservesInv(OnLinkKey(s, i, k), k);
    case MouseEnter(i) =>
      OnHoverInPreservesInv(s, i);
    case FocusIn(i) =>
      OnHoverInPreservesInv(s, i);
    case ItemLeaveTimeout(i, pointerOver) =>
      OnDelayedClosePreservesInv(s, i, pointerOver);
    case PanelLeaveTimeout(i) =>
      OnDelayedClosePreservesInv(s, i, false);
    case FocusOutTimeout(i, focusInside) =>
      OnDelayedClosePreservesInv(s, i, focusInside);
    case Resize(width) =>
      OnResizePreservesInv(s, width);
  }

  lemma {:induction false} RunPreservesInv(s: State, events: seq<Event>)
    requires Inv(s)
    ensures Inv(Run(s, events))
    decreases |events|
  {
    if events != [] {
      StepPreservesInv(s, events[0]);
      RunPreservesInv(Step(s, events[0]), events[1..]);
    }
  }

  /**
   From a page whose markup starts closed, after any sequence of events at
   most one item is open, every open item has a link and a panel, and every
   ARIA attribute agrees with the state it reflects.
   */
  lemma ReachableStatesSatisfyInv(width: int, markup: seq<Markup>, events: seq<Event>)
    requires forall k :: 0 <= k < |markup| ==> MarkupClosed(markup[k])
    ensures var s := Run(Init(width, markup), events);
      AtMostOneOpen(s.items) && OnlyDropdownItemsOpen(s.items) && AriaMirrors(s)
  {
    InitInvIff(width, markup);
    RunPreservesInv(Init(width, markup), events);
  }

  /** The part of the invariant that does not depend on the markup's ARIA attributes. */
  predicate OpenInv(s: State) {
    AtMostOneOpen(s.items) && OnlyDropdownItemsOpen(s.items)
  }

  /** Every event keeps at most one item open and only items with a link and a panel open. */
  lemma StepPreservesOpenInv(s: State, e: Event)
    requires OpenInv(s)
    ensures OpenInv(Step(s, e))
  {
  }

  lemma {:induction false} RunPreservesOpenInv(s: State, events: seq<Event>)
    requires OpenInv(s)
    ensures OpenInv(Run(s, events))
    decreases |events|
  {
    if events != [] {
      StepPreservesOpenInv(s, events[0]);
      RunPreservesOpenInv(Step(s, events[0]), events[1..]);
    }
  }

  /**
   Whatever ARIA attributes the markup carries, after any sequence of events
   at most one item is open and every open item has a link and a panel.
   */
  lemma ReachableStatesKeepOneDropdown(width: int, markup: seq<Markup>, events: seq<Event>)
    ensures var s := Run(Init(width, markup), events);
      AtMostOneOpen(s.items) && OnlyDropdownItemsOpen(s.items)
  {
    RunPreservesOpenInv(Init(width, markup), events);
  }

  // ---------------------------------------------------------------------------
  // Structure that never changes

  lemma StepKeepsStructure(s: State, e: Event)
    ensures Step(s, e).hoverWired == s.hoverWired && SameShape(s.items, Step(s, e).items)
  {
  }

  lemma {:induction false} RunKeepsStructure(s: State, events: seq<Event>)
    ensures Run(s, events).hoverWired == s.hoverWired && SameShape(s.items, Run(s, events).items)
    decreases |events|
  {
    if events != [] {
      StepKeepsStructure(s, events[0]);
      RunKeepsStructure(Step(s, events[0]), events[1..]);
    }
  }

  // ---------------------------------------------------------------------------
  // Delayed callbacks only close

  lemma OnlyClosesTransitive(a: State, b: State, c: State)
    requires OnlyCloses(a, b) && OnlyCloses(b, c)
    ensures OnlyCloses(a, c)
  {
    forall k | 0 <= k < |a.items| && c.items[k] != a.items[k]
      ensures !c.items[k].open
    {
      if c.items[k] == b.items[k] {
        assert b.items[k] != a.items[k];
      }
    }
  }

  lemma DelayedCloseOnlyCloses(s: State, e: Event)
    requires IsDelayedClose(e)
    ensures OnlyCloses(s, Step(s, e))
  {
  }

  /** However many delayed close callbacks fire, in whatever order, they never open anything or touch the menu. */
  lemma {:induction false} DelayedClosesOnlyClose(s: State, events: seq<Event>)
    requires forall n :: 0 <= n < |events| ==> IsDelayedClose(events[n])
    ensures OnlyCloses(s, Run(s, events))
    decreases |events|
  {
    if events == [] {
      assert Run(s, events) == s;
    } else {
      var next := Step(s, events[0]);
      DelayedCloseOnlyCloses(s, events[0]);
      DelayedClosesOnlyClose(next, events[1..]);
      OnlyClosesTransitive(s, next, Run(next, events[1..]));
    }
  }

  // ---------------------------------------------------------------------------
  // How the listeners combine

  /**
   Escape on the hamburger runs the hamburger's listener and then the
   document's. When the page is mobile, or the menu is closed, that is the
   same as the document's listener alone: the second close is idempotent.
   On desktop with the menu open, the hamburger's listener closes the menu
   where the document's alone would not.
   */
  lemma HamburgerEscape(s: State)
    ensures s.isMobile || !s.menuOpen ==>
      Step(s, HamburgerKeydown(EscapeKey)) == Step(s, DocumentKeydown(EscapeKey))
    ensures s.menuOpen ==> Step(s, HamburgerKeydown(EscapeKey)) == CloseMobileMenu(s)
    ensures !s.isMobile && s.menuOpen ==> Step(s, DocumentKeydown(EscapeKey)).menuOpen
  {
    if s.menuOpen {
      CloseAllAfterCloseMenu(s);
    }
  }

  /**
   A link click that does not stop propagation reaches the document's click
   listener with a target inside a nav item; that listener then changes
   nothing, wherever the header is.
   */
  lemma LinkClickBubbleIsInert(s: State, i: nat, inHeader: bool)
    requires HasLinkListeners(s, i) && !LinkClickStops(s, i)
    ensures OnDocumentClick(OnLinkClick(s, i), inHeader, true) == OnLinkClick(s, i)
  {
  }

  /**
   Hover listeners are attached only at start-up and never check the mode, so
   on a page that started wide and was narrowed a `mouseenter` still opens the
   item, and a click on its link then toggles it shut again.
   */
  lemma HoverStaysWiredOnMobile(markup: seq<Markup>, i: nat, width: int)
    requires i < |markup| && markup[i].hasLink && markup[i].hasDropdown
    requires IsMobileWidth(width)
    ensures var s := Run(Init(1200, markup), [Resize(width), MouseEnter(i)]);
      s.isMobile && IsOpen(s.items, i)
    ensures var s := Run(Init(1200, markup), [Resize(width), MouseEnter(i), LinkClick(i)]);
      s.isMobile && !IsOpen(s.items, i)
  {
    var s0 := Init(1200, markup);
    var s1 := Step(s0, Resize(width));
    var s2 := Step(s1, MouseEnter(i));
    var s3 := Step(s2, LinkClick(i));
    assert Run(s0, [Resize(width), MouseEnter(i)]) == Run(s1, [MouseEnter(i)]) == Run(s2, []);
    assert Run(s0, [Resize(width), MouseEnter(i), LinkClick(i)])
        == Run(s1, [MouseEnter(i), LinkClick(i)]) == Run(s2, [LinkClick(i)]) == Run(s3, []);
  }

  /**
   With the menu closed a dropdown can still be open: on desktop hovering an
   item opens it whatever the menu's state.
   */
  lemma DropdownOpenWhileMenuClosed(markup: seq<Markup>, i: nat, width: int)
    requires i < |markup| && markup[i].hasLink && markup[i].hasDropdown
    requires !IsMobileWidth(width)
    ensures var s := Step(Init(width, markup), MouseEnter(i));
      !s.menuOpen && IsOpen(s.items, i)
  {
  }
}
