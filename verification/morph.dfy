/**
 Shape morphing on hover: an element marked with a morph type gets that
 type's border radius while the mouse is over it and the normal radius
 otherwise. The three known types are `circle`, `waves` and `organic`.
 */
module Morph {
  import opened Wrappers

  const NormalRadius: string := "20px"

  /** The border radius a known morph type takes on hover. */
  function HoverRadius(morphType: string): Option<string> {
    if morphType == "circle" then Some("50%")
    else if morphType == "waves" then Some("50% 50% 50% 50% / 60% 60% 40% 40%")
    else if morphType == "organic" then Some("30% 70% 70% 30% / 30% 30% 70% 70%")
    else None
  }

  /**
   `morphShape`: the element's new border radius, given its `data-morph`
   attribute (`None` when absent), the state and its current radius.
   */
  function MorphShape(morph: Option<string>, state: string, radius: string): (r: string)
    ensures morph.None? || HoverRadius(morph.value).None? ==> r == radius
    ensures morph.Some? && HoverRadius(morph.value).Some? && state == "hover" ==> r == HoverRadius(morph.value).value
    ensures morph.Some? && HoverRadius(morph.value).Some? && state != "hover" ==> r == NormalRadius
  {
    match morph
    case None => radius
    case Some(t) =>
      match HoverRadius(t)
      case None => radius
      case Some(h) => if state == "hover" then h else NormalRadius
  }

  datatype MouseEvent = MouseEnter | MouseLeave

  /** The listeners: mouseenter morphs to "hover", mouseleave to "normal". */
  function OnMouse(morph: Option<string>, e: MouseEvent, radius: string): (r: string)
    ensures morph.Some? && HoverRadius(morph.value).Some? && e == MouseEnter ==> r == HoverRadius(morph.value).value
    ensures morph.Some? && HoverRadius(morph.value).Some? && e == MouseLeave ==> r == NormalRadius
    ensures morph.None? || HoverRadius(morph.value).None? ==> r == radius
  {
    MorphShape(morph, if e == MouseEnter then "hover" else "normal", radius)
  }

  // ---------------------------------------------------------------------

  /** Each known type has its own hover radius, different from the others and from the normal one. */
  lemma HoverRadiiDistinct()
    ensures HoverRadius("circle").Some? && HoverRadius("waves").Some? && HoverRadius("organic").Some?
    ensures HoverRadius("circle") != HoverRadius("waves")
    ensures HoverRadius("circle") != HoverRadius("organic")
    ensures HoverRadius("waves") != HoverRadius("organic")
    ensures forall t :: HoverRadius(t).Some? ==> HoverRadius(t).value != NormalRadius
    ensures forall t :: HoverRadius(t).Some? <==> t in {"circle", "waves", "organic"}
  {
  }

  /** On a known type, leaving restores the normal radius and entering gives the hover radius. */
  lemma LeaveRestoresNormal(t: string, radius: string)
    requires HoverRadius(t).Some?
    ensures OnMouse(Some(t), MouseLeave, radius) == NormalRadius
    ensures OnMouse(Some(t), MouseEnter, radius) == HoverRadius(t).value
  {
  }

  /** An element with no or an unknown morph type never changes. */
  lemma {:induction false} UnknownTypeUntouched(morph: Option<string>, es: seq<MouseEvent>, radius: string)
    requires morph.None? || HoverRadius(morph.value).None?
    ensures RunMouse(morph, es, radius) == radius
    decreases |es|
  {
    if |es| > 0 {
      UnknownTypeUntouched(morph, es[1..], OnMouse(morph, es[0], radius));
    }
  }

  function RunMouse(morph: Option<string>, es: seq<MouseEvent>, radius: string): string
    decreases |es|
  {
    if |es| == 0 then radius else RunMouse(morph, es[1..], OnMouse(morph, es[0], radius))
  }
}
