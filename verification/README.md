# Header navigation controller, modelled in Dafny

This project models the navigation controller of `assets/hamburger.js`, the
script that drives a landing page's header. The controller has two parts:

- the slide-out mobile menu behind the hamburger button;
- one dropdown or mega-menu panel per navigation item. These behave as an
  accordion when the user clicks on mobile, and open on hover or focus on
  desktop.

Without the DOM, the controller is a small deterministic state machine. Its
state is:

- the mode (`isMobile`, meaning the viewport is at most 900 px wide);
- the menu flag (`isMenuOpen`, with the nav list's open class);
- the hamburger's `active` class and `aria-expanded`;
- per item, its `open` class, its link's `aria-expanded` and its panel's
  `aria-hidden`.

The structure of each item (whether it has a link and whether it has a panel)
is fixed. So is whether the hover and focus listeners were attached at
start-up.

Every listener is a pure function `State -> State`. Its DOM queries (`:hover`,
`document.activeElement`, `closest(...)`) are boolean inputs. `Step` dispatches
one page event and `Run` folds a sequence of them. The lemmas prove the
following over every event sequence:

- at most one item is open;
- only items with both a link and a panel are ever open;
- every ARIA attribute the controller writes agrees with the state it shows;
- the delayed-close callbacks only ever close.

A small reference machine (`Reference.Menu`) holds the mode, the menu flag and
at most one active item. The controller is proved to follow this machine event
for event.

Files and modules:

- `nav_state.dfy` (`NavState`): the state, the breakpoint and the invariants.
- `dropdowns.dfy` (`Dropdowns`): item open/close, `closeAllDropdowns`, the
  mobile accordion toggle, the hover open and the delayed close.
- `mobile_menu.dfy` (`MobileMenu`): `openMobileMenu`, `closeMobileMenu` and
  `toggleMobileMenu`.
- `handlers.dfy` (`Handlers`): one function per event listener.
- `controller.dfy` (`Controller`): start-up, the event type, `Step`/`Run` and
  the invariant lemmas.
- `reference.dfy` (`Reference`): the reference machine and the refinement proof.

Behaviour of the code worth noting:

- `mouseenter` and `focusin` open a dropdown immediately (lines 140-147 and
  185-192); only closing is delayed.
- The code has no transition guard, overlay, scroll lock or arrow-key handling.
- At most one item is open in both modes, mobile and desktop.
- A dropdown can be open while the menu is closed: on desktop, hovering opens
  a dropdown whatever the menu's state (`Controller.DropdownOpenWhileMenuClosed`).
- Narrowing the viewport into mobile mode closes the dropdowns but leaves the
  menu as it was (lines 270-274).
- Hover and focus listeners are attached once, at start-up, and only in desktop
  mode (line 137). They keep working after the page is narrowed to mobile
  (`Controller.HoverStaysWiredOnMobile`).
- The `resize` listener (debounced) and the `orientationchange` listener both
  call `handleResize` (lines 279-284); one `Resize` event stands for either.

The markup is taken to start in the rest state:

- no item carries `open`;
- the hamburger is not `active` and has `aria-expanded="false"`;
- the nav list is not open.

The items' ARIA attributes may or may not be present in the markup.
`Controller.InitInvIff` states exactly which pre-set values keep the invariant.

## Model

| member | source | states |
|---|---|---|
| Dropdowns.CloseItem | assets/hamburger.js:19-27 | a closed item has no `open` class, its link says not expanded and its panel says hidden; a missing link or panel is left alone |
| Dropdowns.OpenItem | assets/hamburger.js:144-146 | an opened item has `open`, its link says expanded and its panel (when present) says not hidden |
| Dropdowns.CloseAllDropdowns | assets/hamburger.js:15-30 | afterwards no item is open; menu, mode and item structure are untouched; items that were not open are not written at all; items that were open get consistent ARIA values |
| Dropdowns.CloseAllDropdownsIdempotent | assets/hamburger.js:15-30 | closing all dropdowns a second time changes nothing |
| Dropdowns.CloseAllDropdownsPreservesInv | assets/hamburger.js:15-30 | closing all dropdowns keeps at-most-one-open, only-dropdown-items-open and ARIA consistency |
| Dropdowns.ToggleDropdown | assets/hamburger.js:215-240 | the clicked item's `open` flag becomes the negation of its value before the click; every other item ends closed; untouched items keep their ARIA values; the menu is unchanged |
| Dropdowns.OpenOnly | assets/hamburger.js:140-147 | after a hover or focus open, the hovered item is the only open item, with consistent ARIA; the menu is unchanged |
| Dropdowns.CloseOne | assets/hamburger.js:176-180 | a delayed close callback closes exactly its own item and writes its closed ARIA values; nothing else changes |
| MobileMenu.OpenMobileMenu | assets/hamburger.js:47-57 | opening the menu sets the menu flag and the hamburger's expanded state and leaves every item as it was |
| MobileMenu.CloseMobileMenu | assets/hamburger.js:33-44 | closing the menu clears the menu flag and the hamburger's expanded state and closes every dropdown; items that were closed are not written |
| MobileMenu.ToggleMobileMenu | assets/hamburger.js:60-67 | toggling flips the menu flag, the hamburger mirrors it, and closing also collapses every dropdown |
| MobileMenu.CloseMobileMenuIdempotent | assets/hamburger.js:33-44 | closing the menu twice is the same as closing it once |
| MobileMenu.CloseUndoesOpen | assets/hamburger.js:33-57 | closing straight after opening has the same end state as closing alone |
| MobileMenu.CloseAllAfterCloseMenu | assets/hamburger.js:265-269 | the extra `closeAllDropdowns` after `closeMobileMenu` changes nothing |
| MobileMenu.ToggleTwice | assets/hamburger.js:60-67 | two toggles restore the menu flag and collapse every dropdown, from any state whose hamburger mirrors the menu |
| MobileMenu.CloseMobileMenuPreservesInv | assets/hamburger.js:33-44 | closing the menu keeps the invariant |
| MobileMenu.ToggleMobileMenuPreservesInv | assets/hamburger.js:60-67 | toggling the menu keeps the invariant |
| Handlers.OnHamburgerKey | assets/hamburger.js:78-86 | Enter and Space toggle the menu; Escape closes an open menu with all its dropdowns and leaves a closed menu alone; other keys do nothing |
| Handlers.OnDocumentClick | assets/hamburger.js:92-101 | on mobile with the menu open, a click outside the header closes the menu and all dropdowns; on desktop, a click outside every item and panel only closes dropdowns; every other click changes nothing |
| Handlers.OnDocumentKey | assets/hamburger.js:104-113 | Escape on mobile with the menu open closes the menu and every dropdown; in every other state Escape only closes dropdowns and keeps the menu flag; other keys do nothing |
| Handlers.OnLinkClick | assets/hamburger.js:208-246 | on mobile, a dropdown link toggles its item and closes all others, keeping the menu; a plain link closes the menu and all dropdowns; a desktop click, or a click on an item without a link, changes nothing |
| Handlers.OnLinkKey | assets/hamburger.js:249-255 | Enter or Space on a mobile dropdown link toggles its item, as a click would; in every other case the link's listener changes nothing and the menu flag never changes |
| Handlers.OnHoverIn | assets/hamburger.js:137-147 | `mouseenter` or `focusin` on a hover-wired item leaves exactly that item open; on any other item it does nothing; the menu is never touched |
| Handlers.OnDelayedClose | assets/hamburger.js:149-204 | a delayed callback only closes; it closes its item when the pointer or focus has left, and changes nothing otherwise or on an item without hover listeners |
| Handlers.OnResize | assets/hamburger.js:259-275 | the new mode is mobile iff the width is at most 900; crossing to desktop closes the menu and all dropdowns; crossing to mobile closes the dropdowns and keeps the menu; staying on one side changes nothing |
| Controller.SetUpItem | assets/hamburger.js:121-134 | start-up keeps an existing `aria-expanded`/`aria-hidden`, defaults a missing one to not expanded/hidden, and leaves the item closed; for an item without a link the panel default comes from the final pass at lines 290-294 |
| Controller.Init | assets/hamburger.js:4-137 | start-up classifies the width (mobile iff at most 900), wires hover only in desktop mode, and leaves menu and dropdowns closed |
| Controller.InitInvIff | assets/hamburger.js:121-134 | the start-up state satisfies the invariant if and only if the markup's own ARIA attributes all describe closed items |
| Controller.InitialResizeIsInert | assets/hamburger.js:286-287 | the `handleResize` call at the end of start-up changes nothing |
| Controller.OnLinkClickPreservesInv | assets/hamburger.js:208-246 | a link click keeps at most one item open, only dropdown items open, and ARIA consistent |
| Controller.OnHoverInPreservesInv | assets/hamburger.js:140-147 | hover and focus opening keep the invariant |
| Controller.OnDelayedClosePreservesInv | assets/hamburger.js:156-203 | the delayed close callbacks keep the invariant |
| Controller.OnDocumentKeyPreservesInv | assets/hamburger.js:104-113 | the document's Escape handling keeps the invariant |
| Controller.OnResizePreservesInv | assets/hamburger.js:259-275 | a resize keeps the invariant |
| Controller.StepPreservesInv | assets/hamburger.js:69-284 | every event the page delivers keeps the invariant |
| Controller.RunPreservesInv | assets/hamburger.js:69-284 | every sequence of events keeps the invariant |
| Controller.ReachableStatesSatisfyInv | assets/hamburger.js:4-296 | from a page whose pre-set ARIA attributes describe closed items, after any events all ARIA attributes agree with the state, on top of the two open-item facts that `ReachableStatesKeepOneDropdown` gives for any markup |
| Controller.StepPreservesOpenInv | assets/hamburger.js:69-284 | every event keeps at most one item open and only items with a link and a panel open, whatever the ARIA attributes say |
| Controller.RunPreservesOpenInv | assets/hamburger.js:69-284 | every sequence of events keeps at most one item open and only link-and-panel items open |
| Controller.ReachableStatesKeepOneDropdown | assets/hamburger.js:4-296 | from any markup, whatever ARIA attributes it pre-sets, after any events at most one item is open and every open item has a link and a panel |
| Controller.StepKeepsStructure | assets/hamburger.js:116-137 | no event changes the item list, any item's link/panel structure, or whether hover is wired |
| Controller.RunKeepsStructure | assets/hamburger.js:116-137 | no sequence of events changes the fixed structure |
| Controller.DelayedCloseOnlyCloses | assets/hamburger.js:156-203 | a delayed close callback only closes items and never touches the menu or the mode |
| Controller.DelayedClosesOnlyClose | assets/hamburger.js:156-203 | any sequence of delayed callbacks, fired in any order, only closes items |
| Controller.HamburgerEscape | assets/hamburger.js:78-113 | Escape on the hamburger runs its listener and then the document's; with the menu closed or on mobile this equals the document's listener alone; with the menu open it is exactly a menu close; on desktop the document's listener alone would leave the menu open |
| Controller.LinkClickBubbleIsInert | assets/hamburger.js:92-101 | a link click that is not stopped reaches the document's click listener, and that listener changes nothing, wherever the header is |
| Controller.HoverStaysWiredOnMobile | assets/hamburger.js:137-147 | on a page started wide and then narrowed, `mouseenter` still opens an item, and a click on its link then closes it again |
| Controller.DropdownOpenWhileMenuClosed | assets/hamburger.js:137-147 | on desktop a hovered dropdown is open while the menu is closed |
| Reference.AbstractionExists | assets/hamburger.js:4-296 | every state with at most one open item is described by some reference state |
| Reference.RefinesAtMostOne | assets/hamburger.js:4-296 | a state described by a reference state has at most one open item |
| Reference.StepKeepsLayout | assets/hamburger.js:116-137 | no event changes the layout the reference machine reads |
| Reference.CollapseRefines | assets/hamburger.js:15-30 | `closeAllDropdowns` is the reference machine's collapse: no active item, same mode and menu |
| Reference.CloseMenuRefines | assets/hamburger.js:33-44 | `closeMobileMenu` is the reference close: menu closed, no active item |
| Reference.ToggleMenuRefines | assets/hamburger.js:60-67 | `toggleMobileMenu` is the reference toggle |
| Reference.DocumentKeyRefines | assets/hamburger.js:104-113 | the document keydown listener follows the reference Escape |
| Reference.HamburgerKeyRefines | assets/hamburger.js:78-86 | hamburger keydown followed by document keydown follows the reference machine |
| Reference.DocumentClickRefines | assets/hamburger.js:92-101 | the document click listener follows the reference machine |
| Reference.LinkClickRefines | assets/hamburger.js:208-246 | the link click listener follows the reference accordion: the active item becomes inactive, any other becomes the active one |
| Reference.LinkKeyRefines | assets/hamburger.js:249-255 | link keydown followed by document keydown follows the reference machine |
| Reference.HoverInRefines | assets/hamburger.js:140-147 | hover and focus on a wired item make it the active one |
| Reference.DelayedCloseRefines | assets/hamburger.js:156-203 | a delayed close clears the active item only when it is this item |
| Reference.ResizeRefines | assets/hamburger.js:259-275 | a resize follows the reference mode change |
| Reference.StepRefines | assets/hamburger.js:69-284 | every event moves the controller as the reference machine moves |
| Reference.RunRefines | assets/hamburger.js:69-284 | every sequence of events moves the controller as the reference machine moves |
| Reference.ControllerFollowsReference | assets/hamburger.js:4-296 | from start-up, after any events, the open items are exactly the reference machine's active item, and mode and menu flag agree |

## Left out

- Timers: the 150 ms resize debounce, the 150 ms and 100 ms close delays and `clearTimeout`. Each delayed callback is an event that may fire at any time, whether or not a leave event scheduled it. A callback that `clearTimeout` would have cancelled is therefore still allowed, so the model admits more runs than the page. All proved properties hold for every allowed run.
- Scheduling with no state change: the item `mouseleave`, the panel `mouseenter`/`mouseleave` and the `focusout` listeners (lines 149-153, 170-181, 194-195) only schedule or cancel a timer. They appear only through the callbacks they schedule.
- DOM queries: `:hover`, `document.activeElement` and `closest(...)` hit-tests are boolean inputs on the events.
- The missing-element branches (lines 35, 39, 70 and 87-89): the hamburger and the nav list are assumed present. The `console` logging is not modelled either.
- Focus movement (line 108), `preventDefault`, and the browser's native activation of links and buttons by Enter or Space. `stopPropagation` is modelled only through its effect on which listeners run.
- `aria-haspopup` (lines 127-129): it is written once at start-up and never read.
- Markup state at load: the `open` classes, the hamburger's classes and the nav list's class are taken to be at rest.
- `src/App.tsx` and `tailwind.config.js`: page markup, copy, a form that opens a URL, and styling configuration. None of these touch the controller.
