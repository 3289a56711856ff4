/**
  The placement engine of the tooltip component: the coordinates of the tooltip for each of
  the six placements, the viewport-containment test, and the first-fit fallback search that
  `setPosition` performs. Every DOM measurement is a parameter (`Measure`).
 */
module Geometry {
  import opened Wrappers

  /** The six directions a tooltip can take relative to its host element. */
  datatype Placement = Top | TopLeft | Bottom | BottomLeft | Left | Right

  /** The option string of each placement (also the suffix of its CSS class `tooltip-<name>`). */
  function PlacementName(p: Placement): string
  {
    match p
    case Top => "top"
    case TopLeft => "top-left"
    case Bottom => "bottom"
    case BottomLeft => "bottom-left"
    case Left => "left"
    case Right => "right"
  }

  /** Reads a placement option; any other string (or a missing value) is not a placement. */
  function ParsePlacement(s: string): (r: Option<Placement>)
    ensures r.Some? ==> PlacementName(r.value) == s
  {
    if s == "top" then Some(Top)
    else if s == "top-left" then Some(TopLeft)
    else if s == "bottom" then Some(Bottom)
    else if s == "bottom-left" then Some(BottomLeft)
    else if s == "left" then Some(Left)
    else if s == "right" then Some(Right)
    else None
  }

  /**
    A `placement` option as the component holds it: one of the six placements, some other
    string (the option is typed as any string), or undefined.
   */
  datatype PlacementValue = Known(p: Placement) | Other(name: string) | Undef

  lemma ParsePlacementName(p: Placement)
    ensures ParsePlacement(PlacementName(p)) == Some(p)
  {
    match p
    case Top =>
    case TopLeft => assert PlacementName(p) != "top";
    case Bottom => assert PlacementName(p) != "top" && PlacementName(p) != "top-left";
    case BottomLeft =>
      assert PlacementName(p) != "top" && PlacementName(p) != "top-left" && PlacementName(p) != "bottom";
    case Left =>
      assert PlacementName(p) != "top" && PlacementName(p) != "top-left" && PlacementName(p) != "bottom";
      assert PlacementName(p) != "bottom-left";
    case Right =>
      assert PlacementName(p) != "top" && PlacementName(p) != "top-left" && PlacementName(p) != "bottom";
      assert PlacementName(p) != "bottom-left" && PlacementName(p) != "left";
  }

  /**
    The host element's position: its bounding rectangle (a `DOMRect`, viewport coordinates),
    or a caller-supplied `{top, left}` point from the `position` option.
   */
  datatype AnchorPos = DomRect(top: real, left: real) | CustomPoint(top: real, left: real)

  /**
    The DOM measurements `setHostStyle` reads: the host element's size (offsetWidth/offsetHeight,
    or its bounding rectangle's size for an SVG host), the tooltip's clientWidth/clientHeight,
    window.scrollY, window.innerHeight and document.body.clientWidth.
   */
  datatype Measure = Measure(hostWidth: real, hostHeight: real,
                             tooltipWidth: real, tooltipHeight: real,
                             scrollY: real, innerHeight: real, bodyWidth: real)

  /** A tooltip position in page coordinates (the `top`/`left` CSS values in pixels). */
  datatype Pos = Pos(top: real, left: real)

  /** The host's width as used by the formulas: zero for a custom point. */
  function HostWidth(a: AnchorPos, m: Measure): real
  {
    if a.CustomPoint? then 0.0 else m.hostWidth
  }

  /** The host's height as used by the formulas: zero for a custom point. */
  function HostHeight(a: AnchorPos, m: Measure): real
  {
    if a.CustomPoint? then 0.0 else m.hostHeight
  }

  /**
    The position `setHostStyle` computes for a placement. Its contract states the geometry:
    above/below the host the tooltip keeps a gap of `offset`, beside it likewise; `top`/`bottom`
    share the host's horizontal centre, `left`/`right` its vertical centre, and the `-left`
    variants are flush with the host's left edge.
   */
  function ComputePosition(p: Placement, a: AnchorPos, m: Measure, offset: real): (r: Pos)
    // the tooltip's bottom edge is `offset` above the host's top edge
    ensures (p == Top || p == TopLeft) ==> r.top + m.tooltipHeight + offset == a.top + m.scrollY
    // the tooltip's top edge is `offset` below the host's bottom edge
    ensures (p == Bottom || p == BottomLeft) ==> r.top - offset == a.top + m.scrollY + HostHeight(a, m)
    // vertical centres coincide
    ensures (p == Left || p == Right) ==>
              r.top + m.tooltipHeight / 2.0 == a.top + m.scrollY + HostHeight(a, m) / 2.0
    // horizontal centres coincide
    ensures (p == Top || p == Bottom) ==> r.left + m.tooltipWidth / 2.0 == a.left + HostWidth(a, m) / 2.0
    // left edges coincide
    ensures (p == TopLeft || p == BottomLeft) ==> r.left == a.left
    // the tooltip's right edge is `offset` left of the host's left edge
    ensures p == Left ==> r.left + m.tooltipWidth + offset == a.left
    // the tooltip's left edge is `offset` right of the host's right edge
    ensures p == Right ==> r.left - offset == a.left + HostWidth(a, m)
  {
    var hostTop := a.top + m.scrollY;
    var top :=
      match p
      case Top | TopLeft => hostTop - (m.tooltipHeight + offset)
      case Bottom | BottomLeft => hostTop + HostHeight(a, m) + offset
      case Left | Right => hostTop + HostHeight(a, m) / 2.0 - m.tooltipHeight / 2.0;
    var left :=
      match p
      case Top | Bottom => (a.left + HostWidth(a, m) / 2.0) - m.tooltipWidth / 2.0
      case TopLeft | BottomLeft => a.left
      case Left => a.left - m.tooltipWidth - offset
      case Right => a.left + HostWidth(a, m) + offset;
    Pos(top, left)
  }

  /**
    With a non-negative offset the tooltip never overlaps its host: it lies entirely above,
    below, left or right of the host's box, on the side its placement names.
   */
  lemma PlacementClearsHost(p: Placement, a: AnchorPos, m: Measure, offset: real)
    requires offset >= 0.0 && m.hostWidth >= 0.0 && m.hostHeight >= 0.0
    requires m.tooltipWidth >= 0.0 && m.tooltipHeight >= 0.0
    ensures var r := ComputePosition(p, a, m, offset);
            var hostTop := a.top + m.scrollY;
            match p
            case Top | TopLeft => r.top + m.tooltipHeight <= hostTop
            case Bottom | BottomLeft => r.top >= hostTop + HostHeight(a, m)
            case Left => r.left + m.tooltipWidth <= a.left
            case Right => r.left >= a.left + HostWidth(a, m)
  {
  }

  /** A custom `{top, left}` anchor is placed exactly like a zero-sized host at that point. */
  lemma CustomPointIsZeroSizedHost(p: Placement, top: real, left: real, m: Measure, offset: real)
    ensures ComputePosition(p, CustomPoint(top, left), m, offset)
         == ComputePosition(p, DomRect(top, left), m.(hostWidth := 0.0, hostHeight := 0.0), offset)
  {
  }

  /**
    The containment test of `setHostStyle`: a position is rejected when the tooltip's top or
    left edge is negative, its bottom edge passes innerHeight + scrollY, or its right edge
    passes the body's width.
   */
  predicate Fits(r: Pos, m: Measure): (ok: bool)
    ensures ok <==> 0.0 <= r.top && r.top + m.tooltipHeight <= m.innerHeight + m.scrollY
                    && 0.0 <= r.left && r.left + m.tooltipWidth <= m.bodyWidth
  {
    !(r.top < 0.0 || r.top + m.tooltipHeight > m.innerHeight + m.scrollY
      || r.left < 0.0 || r.left + m.tooltipWidth > m.bodyWidth)
  }

  predicate FitsAt(p: Placement, a: AnchorPos, m: Measure, offset: real)
  {
    Fits(ComputePosition(p, a, m, offset), m)
  }

  /** The fixed order in which `setPosition` tries placements when the requested one is clipped. */
  const Candidates: seq<Placement> := [BottomLeft, Bottom, TopLeft, Left, Top, Right]

  /** The index of a placement in `Candidates`. */
  function Rank(p: Placement): (i: nat)
    ensures i < |Candidates| && Candidates[i] == p
  {
    match p
    case BottomLeft => 0
    case Bottom => 1
    case TopLeft => 2
    case Left => 3
    case Top => 4
    case Right => 5
  }

  /** The first index, from `from` on, whose placement fits; `None` when none does. */
  function FirstFit(cands: seq<Placement>, a: AnchorPos, m: Measure, offset: real, from: nat): (r: Option<nat>)
    requires from <= |cands|
    ensures r.Some? ==> from <= r.value < |cands| && FitsAt(cands[r.value], a, m, offset)
    ensures r.Some? ==> forall j :: from <= j < r.value ==> !FitsAt(cands[j], a, m, offset)
    ensures r.None? ==> forall j :: from <= j < |cands| ==> !FitsAt(cands[j], a, m, offset)
    decreases |cands| - from
  {
    if from == |cands| then None
    else if FitsAt(cands[from], a, m, offset) then Some(from)
    else FirstFit(cands, a, m, offset, from + 1)
  }

  /**
    The outcome of `setPosition`: the placement value it applies and whether it took the last-resort path, which applies a placement
    without the containment test and without first removing the other placement classes.
   */
  datatype Resolution = Resolution(placement: PlacementValue, fallback: bool)

  /**
    The placement `setPosition` applies. With auto-placement off, or when the requested placement
    fits, it is the requested one. Otherwise it is the first fitting candidate of `Candidates`;
    when none fits, the previously applied placement (or else the requested one) is applied
    regardless of the viewport.
   */
  function Resolve(original: PlacementValue, previous: PlacementValue, auto: bool,
                   a: AnchorPos, m: Measure, offset: real): (r: Resolution)
    // auto-placement off: the requested placement, never a fallback
    ensures !auto ==> r == Resolution(original, false)
    // a requested placement that fits is kept
    ensures original.Known? && FitsAt(original.p, a, m, offset) ==> r == Resolution(original, false)
    // the last-resort path is taken exactly when nothing fits
    ensures r.fallback <==>
              auto && original.Known? && !FitsAt(original.p, a, m, offset)
              && forall j :: 0 <= j < |Candidates| ==> !FitsAt(Candidates[j], a, m, offset)
    // `currentPlacement ?? originalPlacement`: only an undefined previous placement falls through
    ensures r.fallback ==> r.placement == (if previous.Undef? then original else previous)
    // otherwise, with auto-placement on, the applied placement is inside the viewport
    ensures auto && !r.fallback && r.placement.Known? ==> FitsAt(r.placement.p, a, m, offset)
    // a replacement is the first fitting candidate: every candidate before it was clipped
    ensures !r.fallback && r.placement != original ==>
              original.Known? && !FitsAt(original.p, a, m, offset) && r.placement.Known?
              && forall j :: 0 <= j < Rank(r.placement.p) ==> !FitsAt(Candidates[j], a, m, offset)
  {
    if !original.Known? || !auto || FitsAt(original.p, a, m, offset) then
      Resolution(original, false)
    else
      match FirstFit(Candidates, a, m, offset, 0)
      case Some(i) =>
        assert Rank(Candidates[i]) == i by {
          assert Candidates[Rank(Candidates[i])] == Candidates[i];
        }
        Resolution(Known(Candidates[i]), false)
      case None => Resolution(if previous.Undef? then original else previous, true)
  }

  /** A placement value that is none of the six (another string, or undefined) is applied as it is, whatever the viewport. */
  lemma UnknownPlacementIsKept(original: PlacementValue, previous: PlacementValue, auto: bool,
                               a: AnchorPos, m: Measure, offset: real)
    requires !original.Known?
    ensures Resolve(original, previous, auto, a, m, offset) == Resolution(original, false)
  {
  }

  /**
    A host at (100, 50) of size 20x10, no scrolling, a 40x10 tooltip and offset 8: `top` puts the
    tooltip at (82, 40). In a viewport 70 high and 400 wide no placement fits (each bottom edge
    passes 70), so with no previous placement the requested `top` is applied, clipped.
   */
  lemma ShortViewportKeepsRequested()
    ensures var a := DomRect(100.0, 50.0);
            var m := Measure(20.0, 10.0, 40.0, 10.0, 0.0, 70.0, 400.0);
            ComputePosition(Top, a, m, 8.0) == Pos(82.0, 40.0)
            && ComputePosition(BottomLeft, a, m, 8.0) == Pos(118.0, 50.0)
            && Resolve(Known(Top), Undef, true, a, m, 8.0) == Resolution(Known(Top), true)
  {
    var a := DomRect(100.0, 50.0);
    var m := Measure(20.0, 10.0, 40.0, 10.0, 0.0, 70.0, 400.0);
    forall j | 0 <= j < |Candidates| ensures !FitsAt(Candidates[j], a, m, 8.0) {
    }
  }

  /** A host 10 pixels from the top of the page has no room above it: `top` falls back to `bottom-left`. */
  lemma HostNearTopFallsBackToBottomLeft()
    ensures var a := DomRect(10.0, 50.0);
            var m := Measure(20.0, 10.0, 40.0, 10.0, 0.0, 200.0, 400.0);
            ComputePosition(Top, a, m, 8.0).top < 0.0
            && Resolve(Known(Top), Undef, true, a, m, 8.0) == Resolution(Known(BottomLeft), false)
  {
  }
}
