/**
  The tooltip component: the element that is positioned. It keeps the placement it was asked
  for, the placement it last applied, its placement CSS classes and its `top`/`left` style
  bindings, and it runs the placement engine of `Geometry` to update them in place.
 */
module Component {
  import opened Geometry

  /**
    A `top` or `left` style binding: never written, a number of pixels, or `"undefinedpx"`, which
    is what is written for a placement value that is not one of the six (no formula assigns it).
   */
  datatype Style = Unset | Px(px: real) | UndefinedPx

  /** The two styles `setHostStyle` writes for a placement value. */
  function StylesFor(p: PlacementValue, a: AnchorPos, m: Measure, offset: real): (Style, Style)
  {
    match p
    case Known(q) =>
      var r := ComputePosition(q, a, m, offset);
      (Px(r.top), Px(r.left))
    case _ => (UndefinedPx, UndefinedPx)
  }

  /** The class `tooltip-${placement ?? ''}` that `setPlacementClass` adds. */
  function ClassName(p: PlacementValue): string
  {
    "tooltip-" + match p
                 case Known(q) => PlacementName(q)
                 case Other(s) => s
                 case Undef => ""
  }

  /** The classes of the six placements, the ones `removeAllPlacementClasses` removes. */
  const AllPlacementClasses: set<string> :=
    {"tooltip-bottom-left", "tooltip-bottom", "tooltip-top-left", "tooltip-left", "tooltip-top", "tooltip-right"}

  /** The placement classes after `setPosition` applied the resolution `r`. */
  function ClassesAfter(classes: set<string>, r: Resolution): set<string>
  {
    (if r.fallback then classes else classes - AllPlacementClasses) + {ClassName(r.placement)}
  }

  /** A value emitted on the component's `events` emitter: a string, or an object `{type: ...}`. */
  datatype JsValue = JsString(s: string) | TypedObject(kind: string)

  /** The component's placement state: what `showTooltip` sets and `setPosition` reads and writes. */
  datatype Layout = Layout(originalPlacement: PlacementValue, autoPlacement: bool,
                           hostElementPosition: AnchorPos, tooltipOffset: real,
                           currentPlacement: PlacementValue, placementClasses: set<string>,
                           hostStyleTop: Style, hostStyleLeft: Style)

  class TooltipComponent {
    var originalPlacement: PlacementValue  // the placement the options ask for
    var autoPlacement: bool
    var hostElementPosition: AnchorPos
    var tooltipOffset: real
    var currentPlacement: PlacementValue   // the placement last applied
    var placementClasses: set<string>
    var hostStyleTop: Style
    var hostStyleLeft: Style
    var hostClassShow: bool
    var hostClassHide: bool
    var hostClassDisplayNone: bool

    function CurrentLayout(): Layout
      reads this
    {
      Layout(originalPlacement, autoPlacement, hostElementPosition, tooltipOffset,
             currentPlacement, placementClasses, hostStyleTop, hostStyleLeft)
    }

    /**
      The state `showTooltip` leaves: the new placement settings and anchor, the element shown
      and displayed, and placed as `Resolve` says, starting from the previously applied
      placement and classes.
     */
    ghost predicate ShownWith(placement: PlacementValue, auto: bool, anchor: AnchorPos, offset: real, m: Measure,
                              previous: PlacementValue, previousClasses: set<string>)
      reads this
    {
      var r := Resolve(placement, previous, auto, anchor, m, offset);
      originalPlacement == placement && autoPlacement == auto
      && hostElementPosition == anchor && tooltipOffset == offset
      && hostClassShow && !hostClassHide && !hostClassDisplayNone
      && currentPlacement == r.placement
      && (hostStyleTop, hostStyleLeft) == StylesFor(r.placement, anchor, m, offset)
      && placementClasses == ClassesAfter(previousClasses, r)
    }

    /** The state `hideTooltip` leaves: the placement state `before` untouched, the element switched to hidden. */
    ghost predicate HiddenFrom(before: Layout, displayNone: bool)
      reads this
    {
      CurrentLayout() == before && !hostClassShow && hostClassHide && hostClassDisplayNone == displayNone
    }

    /**
      The placement state after the host moved to `anchor` and `setPosition` ran again with the
      same settings, starting from the placement state `before`.
     */
    ghost predicate Repositioned(before: Layout, anchor: AnchorPos, m: Measure)
      reads this
    {
      var r := Resolve(before.originalPlacement, before.currentPlacement, before.autoPlacement,
                       anchor, m, before.tooltipOffset);
      var styles := StylesFor(r.placement, anchor, m, before.tooltipOffset);
      CurrentLayout() == before.(hostElementPosition := anchor, currentPlacement := r.placement,
                                 placementClasses := ClassesAfter(before.placementClasses, r),
                                 hostStyleTop := styles.0, hostStyleLeft := styles.1)
    }

    constructor ()
      ensures originalPlacement == Undef && !autoPlacement && currentPlacement == Undef
      ensures placementClasses == {} && hostStyleTop == Unset && hostStyleLeft == Unset
      ensures !hostClassShow && !hostClassHide && !hostClassDisplayNone
    {
      originalPlacement := Undef;
      autoPlacement := false;
      hostElementPosition := DomRect(0.0, 0.0);
      tooltipOffset := 0.0;
      currentPlacement := Undef;
      placementClasses := {};
      hostStyleTop, hostStyleLeft := Unset, Unset;
      hostClassShow, hostClassHide, hostClassDisplayNone := false, false, false;
    }

    /**
      Writes the position of `placement` unless auto-placement is on, not disabled for this call,
      and the position leaves the viewport; reports whether it wrote.
     */
    method SetHostStyle(placement: PlacementValue, disableAutoPlacement: bool, m: Measure) returns (ok: bool)
      modifies this`hostStyleTop, this`hostStyleLeft
      ensures ok <==> !placement.Known? || !autoPlacement || disableAutoPlacement
                      || FitsAt(placement.p, hostElementPosition, m, tooltipOffset)
      ensures ok ==> (hostStyleTop, hostStyleLeft) == StylesFor(placement, hostElementPosition, m, tooltipOffset)
      ensures !ok ==> hostStyleTop == old(hostStyleTop) && hostStyleLeft == old(hostStyleLeft)
    {
      // A placement that is none of the six leaves both coordinates undefined; every comparison
      // with them is false, so the containment test cannot reject it.
      if placement.Known? && autoPlacement && !disableAutoPlacement {
        var r := ComputePosition(placement.p, hostElementPosition, m, tooltipOffset);
        var bodyHeight := m.innerHeight + m.scrollY;
        if r.top < 0.0 || r.top + m.tooltipHeight > bodyHeight || r.left < 0.0 || r.left + m.tooltipWidth > m.bodyWidth {
          return false;
        }
      }
      var styles := StylesFor(placement, hostElementPosition, m, tooltipOffset);
      hostStyleTop, hostStyleLeft := styles.0, styles.1;
      return true;
    }

    /** Records `placement` as the applied one and adds its class. */
    method SetPlacementClass(placement: PlacementValue)
      modifies this`currentPlacement, this`placementClasses
      ensures currentPlacement == placement
      ensures placementClasses == old(placementClasses) + {ClassName(placement)}
    {
      currentPlacement := placement;
      placementClasses := placementClasses + {ClassName(placement)};
    }

    /** Removes the classes of all six placements. */
    method RemoveAllPlacementClasses()
      modifies this`placementClasses
      ensures placementClasses == old(placementClasses) - AllPlacementClasses
    {
      placementClasses := placementClasses - AllPlacementClasses;
    }

    /**
      Applies the requested placement if it fits, else the first fitting candidate, else the
      previous placement (or the requested one) without the containment test: a position is
      always written.
     */
    method SetPosition(m: Measure)
      modifies this`currentPlacement, this`placementClasses, this`hostStyleTop, this`hostStyleLeft
      ensures var r := Resolve(originalPlacement, old(currentPlacement), autoPlacement,
                               hostElementPosition, m, tooltipOffset);
              currentPlacement == r.placement
              && (hostStyleTop, hostStyleLeft) == StylesFor(r.placement, hostElementPosition, m, tooltipOffset)
              && placementClasses == ClassesAfter(old(placementClasses), r)
    {
      var allPlacements := Candidates;
      var fits := SetHostStyle(originalPlacement, false, m);
      if fits {
        RemoveAllPlacementClasses();
        SetPlacementClass(originalPlacement);
        return;
      }
      var fallbackPlacement := if currentPlacement.Undef? then originalPlacement else currentPlacement;
      var i := 0;
      while i < |allPlacements|
        invariant 0 <= i <= |allPlacements|
        invariant forall j :: 0 <= j < i ==> !FitsAt(allPlacements[j], hostElementPosition, m, tooltipOffset)
        invariant hostStyleTop == old(hostStyleTop) && hostStyleLeft == old(hostStyleLeft)
        invariant currentPlacement == old(currentPlacement) && placementClasses == old(placementClasses)
      {
        fits := SetHostStyle(Known(allPlacements[i]), false, m);
        if fits {
          RemoveAllPlacementClasses();
          SetPlacementClass(Known(allPlacements[i]));
          return;
        }
        i := i + 1;
      }
      fits := SetHostStyle(fallbackPlacement, true, m);
      SetPlacementClass(fallbackPlacement);
    }

    /**
      `showTooltip`: takes the placement settings of the new configuration, makes the element
      displayed and shown, and positions it.
     */
    method ShowTooltip(placement: PlacementValue, auto: bool, anchor: AnchorPos, offset: real, m: Measure)
      modifies this
      ensures ShownWith(placement, auto, anchor, offset, m, old(currentPlacement), old(placementClasses))
    {
      originalPlacement, autoPlacement := placement, auto;
      hostElementPosition, tooltipOffset := anchor, offset;
      hostClassDisplayNone := false;
      hostClassShow := true;
      hostClassHide := false;
      SetPosition(m);
    }

    /** `hideTooltip`: switches the element from the shown to the hidden class. */
    method HideTooltip()
      modifies this`hostClassShow, this`hostClassHide
      ensures !hostClassShow && hostClassHide
    {
      hostClassShow := false;
      hostClassHide := true;
    }

    /**
      A CSS transition on the element has ended: a shown element announces `shown`; a hidden one
      stops being displayed and announces `hidden`.
     */
    method TransitionEnd() returns (emitted: seq<JsValue>)
      modifies this`hostClassDisplayNone
      ensures emitted == (if hostClassShow then [TypedObject("shown")] else [])
                       + (if hostClassHide then [TypedObject("hidden")] else [])
      ensures hostClassDisplayNone == (old(hostClassDisplayNone) || hostClassHide)
    {
      emitted := [];
      if hostClassShow {
        emitted := emitted + [TypedObject("shown")];
      }
      if hostClassHide {
        hostClassDisplayNone := true;
        emitted := emitted + [TypedObject("hidden")];
      }
    }
  }

  /**
    A placement string that is none of the six stays applied. Shown first with `center`, the
    component applies it as is and gets the class `tooltip-center`; asked next for `top` in a
    viewport where nothing fits, it re-applies `center` (`currentPlacement ?? originalPlacement`
    keeps it), writes `undefinedpx` styles and keeps the class `tooltip-center`.
   */
  lemma UnknownPreviousPlacementIsReapplied()
    ensures var a := DomRect(100.0, 50.0);
            var m := Measure(20.0, 10.0, 40.0, 10.0, 0.0, 70.0, 400.0);
            var r1 := Resolve(Other("center"), Undef, true, a, m, 8.0);
            var r2 := Resolve(Known(Top), r1.placement, true, a, m, 8.0);
            r1 == Resolution(Other("center"), false)
            && ClassesAfter({}, r1) == {"tooltip-center"}
            && r2 == Resolution(Other("center"), true)
            && StylesFor(r2.placement, a, m, 8.0) == (UndefinedPx, UndefinedPx)
            && ClassesAfter(ClassesAfter({}, r1), r2) == {"tooltip-center"}
  {
    var a := DomRect(100.0, 50.0);
    var m := Measure(20.0, 10.0, 40.0, 10.0, 0.0, 70.0, 400.0);
    ShortViewportKeepsRequested();
    assert ClassName(Other("center")) == "tooltip-center";
    assert "tooltip-center" !in AllPlacementClasses;
    var r1 := Resolve(Other("center"), Undef, true, a, m, 8.0);
    assert ClassesAfter({}, r1) == {"tooltip-center"};
    assert Resolve(Known(Top), Other("center"), true, a, m, 8.0) == Resolution(Other("center"), true);
  }
}
