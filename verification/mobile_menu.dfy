/**
 The slide-in mobile menu. A toggle button opens it, a close button and the
 overlay close it, and the Escape key closes it. Two keydown listeners react
 to Escape, in the order they were registered: the menu's own, then the
 page-wide accessibility listener.
 */
module MobileMenu {
  import opened Wrappers

  /** Which of the menu's elements the page contains. */
  datatype Page = Page(hasToggle: bool, hasMenu: bool, hasOverlay: bool, hasCloseButton: bool)

  /**
   The four things the menu touches: the `active` class on the menu and on
   the overlay, the toggle's `aria-expanded` attribute (`None` while unset)
   and the body's `overflow` style.
   */
  datatype Menu = Menu(menuActive: bool, overlayActive: bool, ariaExpanded: Option<string>, bodyOverflow: string)

  datatype Event = ToggleClick | CloseClick | OverlayClick | KeyDown(key: string)

  const Opened: Menu := Menu(true, true, Some("true"), "hidden")
  const Closed: Menu := Menu(false, false, Some("false"), "")

  /** The menu's click and key handlers are installed only when toggle, menu and overlay all exist. */
  predicate Wired(p: Page) {
    p.hasToggle && p.hasMenu && p.hasOverlay
  }

  /** `openMenu`: whatever the state before, the menu ends fully open. */
  function OpenMenu(m: Menu): (r: Menu)
    ensures r.menuActive && r.overlayActive && r.ariaExpanded == Some("true") && r.bodyOverflow == "hidden"
  {
    Menu(true, true, Some("true"), "hidden")
  }

  /** `closeMenu`: whatever the state before, the menu ends fully closed. */
  function CloseMenu(m: Menu): (r: Menu)
    ensures !r.menuActive && !r.overlayActive && r.ariaExpanded == Some("false") && r.bodyOverflow == ""
  {
    Menu(false, false, Some("false"), "")
  }

  /** The menu's own keydown listener. */
  function MenuKeyListener(p: Page, m: Menu, key: string): (r: Menu)
    ensures key != "Escape" || !m.menuActive || !Wired(p) ==> r == m
    ensures Wired(p) && key == "Escape" && m.menuActive ==> r == Closed
  {
    if Wired(p) && key == "Escape" && m.menuActive then CloseMenu(m) else m
  }

  /** The page-wide accessibility keydown listener; it never touches `aria-expanded`. */
  function AccessibilityKeyListener(p: Page, m: Menu, key: string): (r: Menu)
    ensures r.ariaExpanded == m.ariaExpanded
  {
    if key == "Escape" && p.hasMenu && m.menuActive then
      m.(menuActive := false,
         overlayActive := if p.hasOverlay then false else m.overlayActive,
         bodyOverflow := "")
    else m
  }

  /** One user event. */
  function Dispatch(p: Page, m: Menu, e: Event): (r: Menu)
    ensures Wired(p) && e == ToggleClick ==> r == Opened
    ensures Wired(p) && (e == OverlayClick || (e == CloseClick && p.hasCloseButton)) ==> r == Closed
    ensures !Wired(p) ==> r.ariaExpanded == m.ariaExpanded
    ensures !Wired(p) && !e.KeyDown? ==> r == m
  {
    match e
    case ToggleClick => if Wired(p) then OpenMenu(m) else m
    case CloseClick => if Wired(p) && p.hasCloseButton then CloseMenu(m) else m
    case OverlayClick => if Wired(p) then CloseMenu(m) else m
    case KeyDown(key) => AccessibilityKeyListener(p, MenuKeyListener(p, m, key), key)
  }

  function Run(p: Page, m: Menu, es: seq<Event>): Menu
    decreases |es|
  {
    if |es| == 0 then m else Run(p, Dispatch(p, m, es[0]), es[1..])
  }

  // ---------------------------------------------------------------------

  /** The toggle only opens: clicking it again changes nothing. */
  lemma ToggleIdempotent(p: Page, m: Menu)
    requires Wired(p)
    ensures Dispatch(p, m, ToggleClick) == Opened
    ensures Dispatch(p, Dispatch(p, m, ToggleClick), ToggleClick) == Dispatch(p, m, ToggleClick)
  {
  }

  /** Closing restores all four fields, and closing twice is closing once. */
  lemma CloseIdempotent(p: Page, m: Menu, e: Event)
    requires Wired(p) && (e == OverlayClick || (e == CloseClick && p.hasCloseButton))
    ensures Dispatch(p, m, e) == Closed
    ensures Dispatch(p, Dispatch(p, m, e), e) == Dispatch(p, m, e)
  {
  }

  /** Escape on an open menu closes it, `aria-expanded` included. */
  lemma EscapeClosesOpenMenu(p: Page, m: Menu)
    requires Wired(p) && m.menuActive
    ensures Dispatch(p, m, KeyDown("Escape")) == Closed
  {
  }

  /** Escape on a closed menu, and any other key at all, changes nothing. */
  lemma KeyWithoutEffect(p: Page, m: Menu, key: string)
    requires !m.menuActive || key != "Escape"
    ensures Dispatch(p, m, KeyDown(key)) == m
  {
  }

  /**
   Without the toggle button (so without the menu's own listener) Escape
   still hides the menu and overlay and frees scrolling, but leaves
   `aria-expanded` as it was.
   */
  lemma EscapeWithoutToggle(p: Page, m: Menu)
    requires !p.hasToggle && p.hasMenu && p.hasOverlay && m.menuActive
    ensures var r := Dispatch(p, m, KeyDown("Escape"));
      !r.menuActive && !r.overlayActive && r.bodyOverflow == "" && r.ariaExpanded == m.ariaExpanded
  {
  }

  /**
   The states the menu can be in once installed: fully open, or closed with
   the overlay hidden, scrolling free and `aria-expanded` not "true".
   */
  predicate Coherent(m: Menu) {
    m == Opened || (!m.menuActive && !m.overlayActive && m.bodyOverflow == "" && m.ariaExpanded != Some("true"))
  }

  lemma DispatchPreservesCoherent(p: Page, m: Menu, e: Event)
    requires Wired(p) && Coherent(m)
    ensures Coherent(Dispatch(p, m, e))
  {
  }

  /** From a coherent start, every sequence of events keeps the menu coherent. */
  lemma {:induction false} RunPreservesCoherent(p: Page, m: Menu, es: seq<Event>)
    requires Wired(p) && Coherent(m)
    ensures Coherent(Run(p, m, es))
    decreases |es|
  {
    if |es| > 0 {
      DispatchPreservesCoherent(p, m, es[0]);
      RunPreservesCoherent(p, Dispatch(p, m, es[0]), es[1..]);
    }
  }
}
