/**
  Option resolution of the tooltip directive: the four option layers, their shallow per-key
  merge, and the readers the directive applies to the merged options (`calculatedHideDelay`,
  `isDisplayOnHover`, `isDisplayOnClick`, and the `?? 0` readings of the delays).
 */
module Options {
  import opened Wrappers
  import opened Geometry

  /** The keys of a `TooltipOptions` record. */
  datatype Key =
    | Id | PlacementKey | AutoPlacement | ContentType | ShowDelay | HideDelay
    | HideDelayTouchscreen | ZIndex | AnimationDuration | AnimationDurationDefault | Trigger
    | TooltipClass | Display | DisplayMobile | DisplayTouchscreen | Shadow | Theme | Offset
    | Width | MaxWidth | HideDelayAfterClick | PointerEvents | Position

  /**
    An option value. `Undefined` is a key that is present with the value `undefined`: a shallow
    merge copies it over a lower layer's value like any other.
   */
  datatype Value = Undefined | Num(n: real) | Bool(b: bool) | Str(s: string) | Point(top: real, left: real)

  /** One layer of options: only the keys it holds. */
  type Options = map<Key, Value>

  /** The built-in default of each key; `width` and `position` have none. */
  function DefaultValue(k: Key): Option<Value>
  {
    match k
    case Id => Some(Num(0.0))
    case PlacementKey => Some(Str("top"))
    case AutoPlacement => Some(Bool(true))
    case ContentType => Some(Str("string"))
    case ShowDelay => Some(Num(0.0))
    case HideDelay => Some(Num(300.0))
    case HideDelayTouchscreen => Some(Num(0.0))
    case HideDelayAfterClick => Some(Undefined)
    case ZIndex => Some(Num(0.0))
    case AnimationDuration => Some(Num(300.0))
    case AnimationDurationDefault => Some(Num(300.0))
    case Trigger => Some(Str("hover"))
    case TooltipClass => Some(Str(""))
    case Display => Some(Bool(true))
    case DisplayMobile => Some(Bool(true))
    case DisplayTouchscreen => Some(Bool(true))
    case Shadow => Some(Bool(true))
    case Theme => Some(Str("white-blue"))
    case Offset => Some(Num(8.0))
    case Width => None
    case MaxWidth => Some(Str("200px"))
    case PointerEvents => Some(Str("auto"))
    case Position => None
  }

  /** Every key. */
  const AllKeys: set<Key> :=
    {Id, PlacementKey, AutoPlacement, ContentType, ShowDelay, HideDelay, HideDelayTouchscreen,
     ZIndex, AnimationDuration, AnimationDurationDefault, Trigger, TooltipClass, Display,
     DisplayMobile, DisplayTouchscreen, Shadow, Theme, Offset, Width, MaxWidth,
     HideDelayAfterClick, PointerEvents, Position}

  lemma KeysComplete()
    ensures forall k: Key :: k in AllKeys
  {
    forall k: Key ensures k in AllKeys {
      match k
      case Id => case PlacementKey => case AutoPlacement => case ContentType =>
      case ShowDelay => case HideDelay => case HideDelayTouchscreen => case ZIndex =>
      case AnimationDuration => case AnimationDurationDefault => case Trigger =>
      case TooltipClass => case Display => case DisplayMobile => case DisplayTouchscreen =>
      case Shadow => case Theme => case Offset => case Width => case MaxWidth =>
      case HideDelayAfterClick => case PointerEvents => case Position =>
    }
  }

  /** The library's built-in defaults as an options layer. `hideDelayAfterClick` is present, and undefined. */
  function Defaults(): (d: Options)
    ensures forall k :: k in d <==> DefaultValue(k).Some?
    ensures forall k :: k in d ==> d[k] == DefaultValue(k).value
  {
    KeysComplete();
    map k | k in AllKeys && DefaultValue(k).Some? :: DefaultValue(k).value
  }

  /**
    `Object.assign({}, defaults, init, options, collected)`: each key takes its value from the
    highest layer that holds it (individual inputs, then the options object, then the module's
    init options, then the defaults); keys no layer holds stay absent.
   */
  function Merge(defaults: Options, init: Options, options: Options, collected: Options): (r: Options)
    ensures r.Keys == defaults.Keys + init.Keys + options.Keys + collected.Keys
    ensures forall k :: k in collected ==> r[k] == collected[k]
    ensures forall k :: k in options && k !in collected ==> r[k] == options[k]
    ensures forall k :: k in init && k !in options && k !in collected ==> r[k] == init[k]
    ensures forall k :: k in defaults && k !in init && k !in options && k !in collected ==> r[k] == defaults[k]
  {
    defaults + init + options + collected
  }

  /** Reading a key: an absent key reads as `undefined`. */
  function Get(o: Options, k: Key): Value
  {
    if k in o then o[k] else Undefined
  }

  /** `value ?? fallback` on a numeric option (a value of another kind is read as missing). */
  function NumberOr(v: Value, fallback: real): real
  {
    match v
    case Num(n) => n
    case _ => fallback
  }

  /** JavaScript truthiness of a numeric option: defined and non-zero. */
  predicate TruthyNumber(v: Value)
  {
    v.Num? && v.n != 0.0
  }

  /** `mergedOptions.showDelay ?? 0`. */
  function ShowDelayOf(o: Options): real
  {
    NumberOr(Get(o, ShowDelay), 0.0)
  }

  /** `mergedOptions.hideDelay ?? 0`, the delay the hover-leave pipeline waits. */
  function HideDelayOf(o: Options): real
  {
    NumberOr(Get(o, HideDelay), 0.0)
  }

  /** The touch-aware hide delay: `hideDelayTouchscreen` on a touch device when it is truthy, else `hideDelay ?? 0`. */
  function CalculatedHideDelay(o: Options, touch: bool): (r: real)
    ensures !touch ==> r == HideDelayOf(o)
    ensures r == HideDelayOf(o)
            || (touch && Get(o, HideDelayTouchscreen).Num? && r == Get(o, HideDelayTouchscreen).n && r != 0.0)
  {
    if touch && TruthyNumber(Get(o, HideDelayTouchscreen)) then Get(o, HideDelayTouchscreen).n
    else HideDelayOf(o)
  }

  /**
    The hide delay after a click, when one is armed: only a value that is truthy and positive
    (`!!hideDelayAfterClick && hideDelayAfterClick > 0`) arms the timer.
   */
  function ClickHideDelay(o: Options): (r: Option<real>)
    ensures r.Some? <==> Get(o, HideDelayAfterClick).Num? && Get(o, HideDelayAfterClick).n > 0.0
    ensures r.Some? ==> r.value > 0.0 && r.value == Get(o, HideDelayAfterClick).n
  {
    var v := Get(o, HideDelayAfterClick);
    if TruthyNumber(v) && v.n > 0.0 then Some(v.n) else None
  }

  /** `display == false || (displayTouchscreen == false && isTouchScreen)`: the tooltip is switched off. */
  predicate DisplayDisabled(o: Options, touch: bool)
  {
    Get(o, Display) == Bool(false) || (Get(o, DisplayTouchscreen) == Bool(false) && touch)
  }

  /** `isDisplayOnHover`: displayed, and triggered by hovering. */
  predicate IsDisplayOnHover(o: Options, touch: bool): (r: bool)
    ensures r <==> Get(o, Trigger) == Str("hover") && Get(o, Display) != Bool(false)
                   && (!touch || Get(o, DisplayTouchscreen) != Bool(false))
  {
    !DisplayDisabled(o, touch) && Get(o, Trigger) == Str("hover")
  }

  /** `isDisplayOnClick`: displayed, and triggered by clicking. */
  predicate IsDisplayOnClick(o: Options, touch: bool): (r: bool)
    ensures r <==> Get(o, Trigger) == Str("click") && Get(o, Display) != Bool(false)
                   && (!touch || Get(o, DisplayTouchscreen) != Bool(false))
  {
    !DisplayDisabled(o, touch) && Get(o, Trigger) == Str("click")
  }

  /** The requested placement: one of the six, another string as it is, or undefined. */
  function PlacementOf(o: Options): (r: PlacementValue)
    ensures r.Known? ==> Get(o, PlacementKey) == Str(PlacementName(r.p))
    ensures r.Other? ==> Get(o, PlacementKey) == Str(r.name) && ParsePlacement(r.name) == None
    ensures r.Undef? <==> !Get(o, PlacementKey).Str?
  {
    match Get(o, PlacementKey)
    case Str(s) =>
      (match ParsePlacement(s)
       case Some(q) => Known(q)
       case None => Other(s))
    case _ => Undef
  }

  /** `autoPlacement`, read for its truthiness. */
  predicate AutoPlacementOf(o: Options)
  {
    Get(o, AutoPlacement) == Bool(true)
  }

  /** `Number(offset)`; a missing offset is read as 0 (see README). */
  function OffsetOf(o: Options): real
  {
    NumberOr(Get(o, Offset), 0.0)
  }

  /** `mergedOptions.position ?? hostElement.getBoundingClientRect()`. */
  function HostElementPosition(o: Options, rectTop: real, rectLeft: real): (a: AnchorPos)
    ensures Get(o, Position).Point? ==> a == CustomPoint(Get(o, Position).top, Get(o, Position).left)
    ensures !Get(o, Position).Point? ==> a == DomRect(rectTop, rectLeft)
  {
    match Get(o, Position)
    case Point(t, l) => CustomPoint(t, l)
    case _ => DomRect(rectTop, rectLeft)
  }

  // ---------------------------------------------------------------------------------------
  // Properties of the resolved options

  /** Hover and click display are never both on. */
  lemma HoverAndClickExclusive(o: Options, touch: bool)
    ensures !(IsDisplayOnHover(o, touch) && IsDisplayOnClick(o, touch))
  {
  }

  /**
    An individual `display = false` input switches the tooltip off for both triggers, whatever
    the other layers say.
   */
  lemma DisplayInputWins(init: Options, options: Options, collected: Options, touch: bool)
    requires Display in collected && collected[Display] == Bool(false)
    ensures var o := Merge(Defaults(), init, options, collected);
            !IsDisplayOnHover(o, touch) && !IsDisplayOnClick(o, touch)
  {
  }

  /** With no layer above the defaults, the tooltip shows on hover, on every kind of device. */
  lemma DefaultsShowOnHover(touch: bool)
    ensures var o := Merge(Defaults(), map[], map[], map[]);
            IsDisplayOnHover(o, touch) && !IsDisplayOnClick(o, touch)
  {
  }

  /**
    With no layer above the defaults: a show delay of 0, a hide delay of 300 also on a touch
    device (the touchscreen default 0 is falsy and falls through), and no hide after a click.
   */
  lemma DefaultDelays(touch: bool)
    ensures var o := Merge(Defaults(), map[], map[], map[]);
            ShowDelayOf(o) == 0.0 && CalculatedHideDelay(o, touch) == 300.0 && ClickHideDelay(o) == None
  {
  }

  /** With no layer above the defaults: placement `top`, auto-placement on, an offset of 8. */
  lemma DefaultPlacement()
    ensures var o := Merge(Defaults(), map[], map[], map[]);
            PlacementOf(o) == Known(Top) && AutoPlacementOf(o) && OffsetOf(o) == 8.0
  {
    ParsePlacementName(Top);
  }

  /**
    An explicitly undefined key in a higher layer hides the lower layers' value: a `showDelay`
    input set to `undefined` makes the show delay 0 even over an options object that sets it.
   */
  lemma UndefinedInputShadowsLowerLayers(init: Options, options: Options, collected: Options)
    requires ShowDelay in collected && collected[ShowDelay] == Undefined
    ensures ShowDelayOf(Merge(Defaults(), init, options, collected)) == 0.0
  {
  }

  /** Off a touch device, and on one whose touchscreen delay is 0, the calculated delay is `hideDelay ?? 0`. */
  lemma CalculatedHideDelayFallsThrough(o: Options, touch: bool)
    requires !touch || !TruthyNumber(Get(o, HideDelayTouchscreen))
    ensures CalculatedHideDelay(o, touch) == HideDelayOf(o)
  {
  }

  /** On a touch device with a non-zero touchscreen delay, the calculated delay is that delay. */
  lemma CalculatedHideDelayOnTouch(o: Options, d: real)
    requires Get(o, HideDelayTouchscreen) == Num(d) && d != 0.0
    ensures CalculatedHideDelay(o, true) == d
  {
  }
}
