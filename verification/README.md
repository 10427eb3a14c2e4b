# SmartSpace site behaviour, modelled in Dafny

The SmartSpace IoT website is a static marketing site whose scripts are
almost entirely DOM wiring and visual effects. This project lifts out the
few pieces of its behaviour that are plain sequential logic, states them as
pure functions and small state machines over immutable records, and proves
the properties the page relies on:

- **Product comparison list** (`Comparison`, `comparison.dfy`): clicking a
  product's compare button toggles its id in an ordered list of at most
  four ids; a fifth product is refused with an alert, and the counter
  element shows the list length after every click.
- **Product filter** (`ProductFilter`, `product_filter.dfy`, with `Text`
  and `JsParseInt`): a product card is displayed exactly when its
  lower-cased title contains the lower-cased search text, its category
  equals the selected one (or "all"), and its price is in the selected
  band: low below 225000, medium from 225000 up to 675000, high from
  675000. Prices are read with `parseInt`, so a price may be NaN
  (`None`), and NaN fails every band.
- **Swipe gestures** (`Swipe`, `swipe.dfy`): the per-container tracker
  `(startX, currentX, dragging)` with the items' drag offset, driven by
  touchstart, touchmove and touchend. Touchend reports a right swipe when
  the travel exceeds 100 pixels and a left swipe when it is below -100.
- **Mobile menu** (`MobileMenu`, `mobile_menu.dfy`): open, close, overlay
  click and the two Escape listeners (the menu's own, then the page-wide
  accessibility one), over the four things they touch. These are the
  `active` classes on the menu and overlay, `aria-expanded`, and the
  body's `overflow`.
- **Hover morphing** (`Morph`, `morph.dfy`): the table from morph type and
  state to border radius.
- **Scroll-to-top button** (`ScrollToTop`, `scroll_to_top.dfy`): visible
  exactly when the page is scrolled more than 500 pixels.

`wrappers.dfy` holds the `Option` type used for missing attributes and NaN.

Notes on the source as modelled:

- `enhanced-interactions.java` is JavaScript despite its extension. Line
  252 begins with a stray `n` before `case 'waves':`, which makes the whole
  file fail to parse. As shipped, none of it runs: not the swipe tracker,
  the mobile menu, the Escape listeners, the morphing or the scroll-to-top
  button. The `Swipe`, `MobileMenu`, `Morph` and `ScrollToTop` modules all
  describe the file with line 252 repaired, so that the `switch` has three
  cases, each with its own hover radius.
- `initScrollToTop` and `initMorphingAnimations` are defined but not called
  from the class's `init` (enhanced-interactions.java:9-17). They are
  modelled as they would behave once installed.
- The comparison list is an ordered array, not a set. Removal uses
  `indexOf` and `splice`, so the remaining ids keep their order. The model
  follows that.
- Coordinates (`clientX`, `pageYOffset`) are doubles in the browser and
  `real` here. Prices are unbounded integers. Double rounding cannot move a
  price across the 225000 or 675000 thresholds, so band membership agrees
  with the browser.

## Model

| member | source | states |
|---|---|---|
| Comparison.Initial | main.js:305-307 | the page starts with an empty list, the counter is present exactly when the page has one (taken to show 0), and the start state satisfies the invariant |
| Comparison.ToggleIds | main.js:313-328 | a held id is removed (one fewer element, multiset minus that id); an absent id is appended at the end when fewer than 4 are held; otherwise the list is unchanged and the click is rejected with the limit 4 |
| Comparison.Click | main.js:310-338 | a click changes the list exactly as the toggle does and leaves the counter, when the page has one, showing the new list length |
| Comparison.RemoveKeepsOrder | main.js:313-316 | on a duplicate-free list, toggling a held id gives the list with exactly that id removed and the other ids in their original order |
| Comparison.AddThenRemove | main.js:313-322 | selecting an absent product and then deselecting it restores the original list |
| Comparison.FifthIsRejected | main.js:320-327 | with 4 distinct ids held, a click on a fifth product leaves list and counter unchanged and reports rejection |
| Comparison.ClickPreservesValid | main.js:307-322 | every click keeps the list at most 4 long, free of duplicates, and the counter equal to its length |
| Comparison.RunPreservesValid | main.js:305-338 | any sequence of clicks from a valid state keeps that invariant |
| Comparison.InitialValid | main.js:305-307 | the empty list the page starts with satisfies the invariant |
| Comparison.IndexOf | main.js:315 | `indexOf` returns the position of the first occurrence of a held id |
| Comparison.RemoveAt | main.js:316 | `splice(k, 1)` keeps the elements before `k` and shifts the ones after it down by one |
| ProductFilter.PriceBandsPartition | main.js:278-281 | a known price matches a band filter iff the filter names the price's band; "all" matches every price; any other filter value matches nothing; NaN matches only "all" |
| ProductFilter.ExactlyOneBand | main.js:279-281 | every integer price matches exactly one of low, medium and high |
| ProductFilter.Band | main.js:279-281 | each price belongs to one of the three named bands |
| ProductFilter.Filter | main.js:276-294 | a card is displayed iff the lower-cased search text occurs at some position of the lower-cased title, the category test passes and the price test passes |
| ProductFilter.DisplayedIff | main.js:276-294 | a card is displayed iff the lower-cased search text occurs in the lower-cased title, the category select is absent or "all" or equals the card's category, and the price test passes; otherwise it is hidden |
| ProductFilter.FilterAll | main.js:271-295 | one filter pass yields one display value per card, in page order, each the card's own verdict |
| ProductFilter.EmptySearchMatchesAll | main.js:267-276 | an empty search text matches every title |
| ProductFilter.SearchIgnoresCase | main.js:267-276 | search texts that are the same character by character up to ASCII letter case select the same titles |
| ProductFilter.TitleIgnoresCase | main.js:272-276 | titles that are the same character by character up to ASCII letter case are matched by the same search texts |
| ProductFilter.UpperCaseSearchFindsTitle | main.js:267-276 | the search text "LAMP" finds the title "Smart Lamp" |
| ProductFilter.CategoryWildcard | main.js:268-277 | with no category select, or "all" selected, every category passes, including a missing one |
| ProductFilter.ReadProductPrice | main.js:273-274 | a `data-price` holding a decimal integer gives exactly that price; a missing attribute gives NaN |
| ProductFilter.LampAndFan | main.js:266-296 | for a lamp at 100000 and a fan at 700000, searching "lamp" shows only the lamp and the "high" band shows only the fan |
| Text.Includes | main.js:276 | an empty needle is always found and a found needle is no longer than the haystack; `Text.IncludesIff` states the full behaviour |
| Text.IncludesIff | main.js:276 | `includes` holds iff the needle occurs at some position of the haystack |
| Text.IncludesFindsOccurrence | main.js:276 | when `includes` succeeds the needle occurs at some position of the haystack |
| Text.OccurrenceIsFound | main.js:276 | every occurrence of the needle makes `includes` succeed |
| Text.Lower | main.js:267 | lower-casing keeps the length, turns each ASCII upper-case letter into its own lower-case letter and keeps every other character |
| Text.LowerEqualIff | main.js:267-276 | two strings lower-case to the same text iff they are the same character by character up to ASCII letter case |
| Text.IncludesEmpty | main.js:276 | the empty string is included in every string |
| JsParseInt.ParseInt | main.js:274 | text that is empty after white space, or that starts with neither a sign nor a digit, is NaN; a negative result needs a leading minus; `ParseIntOfIntToString` states the round trip |
| JsParseInt.ParsePriceAttribute | main.js:274 | a missing attribute reads as NaN and a present one is read by `parseInt` |
| JsParseInt.ParseIntOfIntToString | main.js:274 | `parseInt` reads back every integer written in decimal |
| JsParseInt.TrailingTextIgnored | main.js:274 | digits followed by text that does not start with a digit read as the digits' value, unless the digits are a lone 0 followed by `x` or `X` |
| JsParseInt.NoLeadingDigitIsNaN | main.js:274 | text starting with anything other than white space, a sign or a digit is NaN |
| JsParseInt.AbsentPriceIsNaN | main.js:274 | a missing `data-price` attribute reads as NaN |
| JsParseInt.ParseMagnitude | main.js:274 | the unsigned part is NaN iff no digit of the detected base follows the optional `0x` prefix |
| JsParseInt.NatToString | main.js:274 | decimal formatting yields non-empty digits, without a leading zero, whose positional value is the number |
| Swipe.Initial | enhanced-interactions.java:72-74 | a container starts with both positions at 0, no drag and the items not moved |
| Swipe.Classify | enhanced-interactions.java:94-109 | travel above 100 is a right swipe, below -100 a left swipe, anything from -100 to 100 inclusive is no swipe |
| Swipe.Step | enhanced-interactions.java:76-110 | only touchend reports a swipe; touchend ends the drag, resets the offset and classifies currentX minus startX; a touchmove during a drag records the position and offsets the items by the travel; only touchstart moves startX |
| Swipe.Run | enhanced-interactions.java:71-111 | a run of events reports only real swipes, at most one per event |
| Swipe.MoveIgnoredWhenNotDragging | enhanced-interactions.java:81-83 | a touchmove with no drag in progress changes nothing |
| Swipe.EndStopsDragging | enhanced-interactions.java:92-101 | touchend always ends the drag and puts the items back |
| Swipe.TapUsesStalePosition | enhanced-interactions.java:76-94 | touchstart leaves currentX alone, so a touchend right after it classifies against the previous gesture's position |
| Swipe.FirstTapFarRightIsLeftSwipe | enhanced-interactions.java:72-107 | on a fresh container a tap at x above 100 reports a left swipe |
| Swipe.MovesTrackLastPosition | enhanced-interactions.java:81-90 | during a drag, a run of touchmoves leaves the last position in currentX, keeps startX and the drag, and reports nothing |
| Swipe.GestureClassifiesTravel | enhanced-interactions.java:76-109 | a full gesture (start, one or more moves, end) reports exactly the classification of last position minus start, and ends with no drag |
| MobileMenu.OpenMenu | enhanced-interactions.java:41-46 | opening sets menu active, overlay active, aria-expanded "true" and body overflow "hidden" |
| MobileMenu.CloseMenu | enhanced-interactions.java:48-53 | closing clears both active classes, sets aria-expanded "false" and clears body overflow |
| MobileMenu.AccessibilityKeyListener | enhanced-interactions.java:265-275 | the page-wide Escape listener never changes aria-expanded |
| MobileMenu.MenuKeyListener | enhanced-interactions.java:59-64 | the menu's own listener closes the menu fully on Escape while it is active and installed, and otherwise changes nothing |
| MobileMenu.Dispatch | enhanced-interactions.java:55-64 | on an installed menu the toggle opens it fully and the close button and overlay close it fully; without the installed handlers no click does anything and aria-expanded never changes |
| MobileMenu.ToggleIdempotent | enhanced-interactions.java:41-55 | the toggle button only opens, so a second click changes nothing |
| MobileMenu.CloseIdempotent | enhanced-interactions.java:48-57 | the close button and overlay restore the closed state, and closing twice equals closing once |
| MobileMenu.EscapeClosesOpenMenu | enhanced-interactions.java:59-64 | Escape on an open menu closes it, leaving aria-expanded "false" |
| MobileMenu.KeyWithoutEffect | enhanced-interactions.java:60-64 | Escape on a closed menu, or any other key, changes nothing |
| MobileMenu.EscapeWithoutToggle | enhanced-interactions.java:265-275 | on a page without the toggle button, Escape still closes menu and overlay and frees scrolling but leaves aria-expanded as it was |
| MobileMenu.DispatchPreservesCoherent | enhanced-interactions.java:41-64 | every event keeps the menu either fully open or closed with overlay hidden, scrolling free and aria-expanded not "true" |
| MobileMenu.RunPreservesCoherent | enhanced-interactions.java:39-64 | any sequence of events keeps that coherence |
| Morph.MorphShape | enhanced-interactions.java:244-260 | with no or an unknown morph type the radius is untouched; a known type outside "hover" gets "20px" |
| Morph.OnMouse | enhanced-interactions.java:233-240 | for a known type mouseenter gives the type's hover radius and mouseleave gives "20px"; with no or an unknown type the radius is kept |
| Morph.HoverRadiiDistinct | enhanced-interactions.java:248-259 | exactly circle, waves and organic have a hover radius, each different from the others and from "20px" |
| Morph.LeaveRestoresNormal | enhanced-interactions.java:233-240 | on a known type, mouseleave gives "20px" and mouseenter gives the type's hover radius |
| Morph.UnknownTypeUntouched | enhanced-interactions.java:245-260 | an element without a known morph type keeps its radius through any mouse events |
| ScrollToTop.OnScroll | enhanced-interactions.java:326-334 | after a scroll the button is visible iff the offset exceeds 500 |
| ScrollToTop.VisibleIff | enhanced-interactions.java:327-333 | the button is visible iff the offset exceeds 500; at exactly 500 it is hidden |
| ScrollToTop.Monotone | enhanced-interactions.java:327-333 | scrolling further down never hides a visible button |
| ScrollToTop.OnlyLastOffsetCounts | enhanced-interactions.java:326-334 | after any scrolls the visibility depends only on the last offset |

## Left out

- Particle field, counter animation, floating particles, chat popup, notifications and loader removal: floating point, randomness, timers and graphics libraries with no sequential logic to state (main.js:15-117, 169-190, 212-255, 371-406; enhanced-interactions.java:340-373).
- Slider configuration, scroll reveal, lazy loading, grid reflow, parallax, scroll progress and ripple geometry: library and observer plumbing or floating-point layout arithmetic.
- Dark-mode clock, room-designer placeholder, page routing by pathname, the console-only swipe handlers and service-worker registration: platform calls with no logic of their own.
- Rendering: button labels, class swaps and anime.js tweens. Visibility is a boolean or a `Display` value only.
- Comparison.Initial: takes the counter element to show 0 at load. Until the first click it really shows whatever the page's markup holds, so Comparison.InitialValid rests on that assumption.
- Text.Lower: lower-cases ASCII letters only; JavaScript's full Unicode case mapping is not modelled.
- ProductFilter.Filter: a card without a `.product-title` element makes the handler throw and stop the pass; the model assumes every card has a title.
- JsParseInt.ParseInt: very long digit strings become inexact doubles in JavaScript; the model keeps exact integers, which never changes a band comparison.
- Swipe.Step: double rounding in `currentX - startX` is not modelled.
- MobileMenu.Dispatch: only the `keydown` key name is modelled; other event properties are ignored.
