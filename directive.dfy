/**
  The tooltip directive: resolves the options, owns the tooltip component, and drives its
  lifecycle from host events (hover, focus, click), clicks on the tooltip, scroll/resize and
  timer expiries. It keeps the emitted lifecycle events (`show`, `shown`, `hide`, `hidden`) in
  `events`, and every delayed action in the pending-timer list of `Timers`.
 */
module Directive {
  import opened Wrappers
  import opened Geometry
  import opened Options
  import opened Component
  import opened Timers

  datatype EventKind = Show | Shown | Hide | Hidden

  /** An event of the directive's `events` output: its type and the host element's position. */
  datatype Event = Event(kind: EventKind, position: AnchorPos)

  /**
    The content inputs, as far as `show()` looks at them: the string (an undefined string is
    taken as ""), and whether the HTML and the template inputs are set.
   */
  datatype Content = Content(str: string, html: bool, template: bool)

  /**
    What the DOM says when an event is handled: the host's bounding rectangle, the measurements
    the placement engine reads, and whether the device is a touch screen.
   */
  datatype Env = Env(rectTop: real, rectLeft: real, measure: Measure, touch: bool)

  /** `show()`'s guard: the payload of the active content type is present. */
  predicate HasContent(o: Options, c: Content): (r: bool)
    ensures r ==> Get(o, ContentType) == Str("string") || Get(o, ContentType) == Str("html")
                  || Get(o, ContentType) == Str("template")
    ensures Get(o, ContentType) == Str("string") ==> (r <==> c.str != "")
    ensures Get(o, ContentType) == Str("html") ==> (r <==> c.html)
    ensures Get(o, ContentType) == Str("template") ==> (r <==> c.template)
  {
    match Get(o, ContentType)
    case Str(s) => (s == "string" && c.str != "") || (s == "html" && c.html) || (s == "template" && c.template)
    case _ => false
  }

  /** The pending timers after `show()`. */
  function PendingAfterShow(p: seq<Timer>, o: Options, c: Content, hasComponent: bool, now: real): seq<Timer>
  {
    if !HasContent(o, c) then p
    else if hasComponent then ClearTimeouts(p)
    else ClearTimeouts(p) + [Timer(now + Delay(ShowDelayOf(o)), CreateComponent)]
  }

  /** The events `show()` emits: `show`, when the content is there and a component can be reused. */
  function EventsAfterShow(o: Options, c: Content, hasComponent: bool, pos: AnchorPos): seq<Event>
  {
    if HasContent(o, c) && hasComponent then [Event(EventKind.Show, pos)] else []
  }

  /**
    The directive's relaying of a value its component emitted, as written: the component emits
    the object `{type: 'shown'}` (or `'hidden'`) and the directive compares that object with the
    string `'shown'` (or `'hidden'`).
   */
  function ForwardAsWritten(v: JsValue, pos: AnchorPos): (r: seq<Event>)
    ensures v == JsString("shown") ==> r == [Event(Shown, pos)]
    ensures v == JsString("hidden") ==> r == [Event(Hidden, pos)]
    ensures v != JsString("shown") && v != JsString("hidden") ==> r == []
  {
    (if v == JsString("shown") then [Event(Shown, pos)] else [])
    + (if v == JsString("hidden") then [Event(Hidden, pos)] else [])
  }

  /** As written, no value the component emits is ever relayed: `shown` and `hidden` are lost. */
  lemma ForwardAsWrittenDropsComponentEvents(kind: string, pos: AnchorPos)
    ensures ForwardAsWritten(TypedObject(kind), pos) == []
  {
  }

  /** The relaying the directive evidently intends: by the emitted object's `type`. */
  function Forward(v: JsValue, pos: AnchorPos): (r: seq<Event>)
    ensures v == TypedObject("shown") ==> r == [Event(Shown, pos)]
    ensures v == TypedObject("hidden") ==> r == [Event(Hidden, pos)]
    ensures v != TypedObject("shown") && v != TypedObject("hidden") ==> r == []
  {
    match v
    case TypedObject(kind) =>
      if kind == "shown" then [Event(Shown, pos)]
      else if kind == "hidden" then [Event(Hidden, pos)]
      else []
    case JsString(_) => []
  }

  /** Relaying each emitted value in turn. */
  function ForwardAll(vs: seq<JsValue>, pos: AnchorPos): seq<Event>
  {
    if vs == [] then [] else Forward(vs[0], pos) + ForwardAll(vs[1..], pos)
  }

  class TooltipDirective {
    const initOptions: Options        // options given to the module
    var options: Options              // the `options` input object
    var collectedOptions: Options     // the individual option inputs
    var mergedOptions: Options
    var content: Content
    var tooltipComponent: TooltipComponent?  // null: no component, or it was destroyed
    var isTooltipVisible: bool
    var events: seq<Event>
    var pending: seq<Timer>
    var now: real
    var destroyed: bool               // `destroy$` has fired: every pipeline has completed

    /** The invariant that holds between steps of the lifecycle. */
    ghost predicate Core()
      reads this, tooltipComponent
    {
      AtMostOnce(pending)
      && (forall t :: t in pending ==> now <= t.due)
      && (destroyed ==> pending == [] && tooltipComponent == null)
      // a creation is pending only while there is no component
      && (Has(pending, CreateComponent) ==> tooltipComponent == null)
      // a visible tooltip has a live component
      && (isTooltipVisible && !destroyed ==> tooltipComponent != null)
      && (tooltipComponent != null ==> tooltipComponent.hostClassShow == isTooltipVisible)
    }

    /** The object invariant: `Core`, and a live component carries the hidden class exactly when not visible. */
    ghost predicate Valid()
      reads this, tooltipComponent
    {
      Core() && (tooltipComponent != null ==> tooltipComponent.hostClassHide == !isTooltipVisible)
    }

    /** The position events carry and the component is anchored at. */
    function PositionIn(env: Env): AnchorPos
      reads this
    {
      HostElementPosition(mergedOptions, env.rectTop, env.rectLeft)
    }

    /** Whether an event at time `at` can be handled now: no pending timer is due before it. */
    predicate Deliverable(at: real)
      reads this
    {
      now <= at && forall t :: t in pending ==> at <= t.due
    }

    /** The directive after its inputs were bound and the first `ngOnChanges` merged them. */
    constructor (initOptions: Options, options: Options, collected: Options, content: Content)
      ensures Valid()
      ensures this.initOptions == initOptions && this.options == options
      ensures collectedOptions == collected && this.content == content
      ensures mergedOptions == Merge(Defaults(), initOptions, options, collected)
      ensures tooltipComponent == null && !isTooltipVisible && !destroyed
      ensures events == [] && pending == [] && now == 0.0
    {
      this.initOptions := initOptions;
      this.options := options;
      collectedOptions := collected;
      this.content := content;
      mergedOptions := Merge(Defaults(), initOptions, options, collected);
      tooltipComponent := null;
      isTooltipVisible := false;
      events, pending, now, destroyed := [], [], 0.0, false;
    }

    /** New input values: the options object is replaced, each individual input is recorded, and the options are merged again. */
    method NgOnChanges(options: Options, inputs: Options, content: Content)
      requires Valid()
      modifies this`options, this`collectedOptions, this`content, this`mergedOptions
      ensures Valid()
      ensures this.options == options && collectedOptions == old(collectedOptions) + inputs
      ensures this.content == content
      ensures mergedOptions == Merge(Defaults(), initOptions, options, collectedOptions)
    {
      this.options := options;
      collectedOptions := collectedOptions + inputs;
      this.content := content;
      mergedOptions := Merge(Defaults(), initOptions, this.options, collectedOptions);
    }

    /** Time passes until `at`; the environment fires every timer due before it first. */
    method AdvanceTo(at: real)
      requires Valid() && Deliverable(at)
      modifies this`now
      ensures Valid() && now == at
    {
      now := at;
    }

    /** `clearTimeouts$.next()`. */
    method ClearTimeoutsNow()
      requires Core()
      modifies this`pending
      ensures Core() && pending == ClearTimeouts(old(pending))
      ensures !Has(pending, CreateComponent)
    {
      FilterKeepsAtMostOnce(pending, a => !CancelledByClear(a));
      pending := ClearTimeouts(pending);
    }

    /**
      The component shown for the current options at the host's position, placed from the
      previously applied placement `previous` and classes `previousClasses`.
     */
    ghost predicate ComponentShown(env: Env, previous: PlacementValue, previousClasses: set<string>)
      requires tooltipComponent != null
      reads this, tooltipComponent
    {
      tooltipComponent.ShownWith(PlacementOf(mergedOptions), AutoPlacementOf(mergedOptions), PositionIn(env),
                                 OffsetOf(mergedOptions), env.measure, previous, previousClasses)
    }

    /**
      `showTooltip`: with a component, cancels the pending timers, emits `show`, shows and
      positions the component and marks the tooltip visible; without one, does nothing.
     */
    method ShowTooltipCore(env: Env)
      requires Core() && !destroyed
      modifies this`pending, this`events, this`isTooltipVisible, tooltipComponent
      ensures Valid()
      ensures tooltipComponent == null ==>
                pending == old(pending) && events == old(events) && isTooltipVisible == old(isTooltipVisible)
      ensures tooltipComponent != null ==>
                pending == ClearTimeouts(old(pending)) && isTooltipVisible
                && events == old(events) + [Event(EventKind.Show, PositionIn(env))]
                && ComponentShown(env, old(tooltipComponent.currentPlacement), old(tooltipComponent.placementClasses))
    {
      if tooltipComponent != null {
        ClearTimeoutsNow();
        events := events + [Event(EventKind.Show, PositionIn(env))];
        tooltipComponent.ShowTooltip(PlacementOf(mergedOptions), AutoPlacementOf(mergedOptions),
                                     PositionIn(env), OffsetOf(mergedOptions), env.measure);
        isTooltipVisible := true;
      }
    }

    /**
      `hideTooltip`: always cancels the pending timers; emits `hide` and hides the component
      only when the tooltip was visible and its component is alive.
     */
    method HideTooltipCore(env: Env)
      requires Valid() && !destroyed
      modifies this`pending, this`events, this`isTooltipVisible, tooltipComponent
      ensures Valid()
      ensures pending == ClearTimeouts(old(pending))
      ensures events == old(events) + (if old(isTooltipVisible) then [Event(EventKind.Hide, PositionIn(env))] else [])
      ensures !isTooltipVisible
      ensures tooltipComponent != null && !old(isTooltipVisible) ==> unchanged(tooltipComponent)
      ensures tooltipComponent != null && old(isTooltipVisible) ==>
                tooltipComponent.HiddenFrom(old(tooltipComponent.CurrentLayout()), old(tooltipComponent.hostClassDisplayNone))
    {
      ClearTimeoutsNow();
      if isTooltipVisible && tooltipComponent != null {
        events := events + [Event(EventKind.Hide, PositionIn(env))];
        tooltipComponent.HideTooltip();
        isTooltipVisible := false;
      }
    }

    /** `createTooltip`: cancels the pending timers and schedules the creation after the show delay. */
    method CreateTooltip()
      requires Valid() && !destroyed && tooltipComponent == null
      modifies this`pending
      ensures Valid()
      ensures pending == ClearTimeouts(old(pending)) + [Timer(now + Delay(ShowDelayOf(mergedOptions)), CreateComponent)]
    {
      ClearTimeoutsNow();
      ClearThenSchedule(old(pending), Timer(now + Delay(ShowDelayOf(mergedOptions)), CreateComponent));
      pending := pending + [Timer(now + Delay(ShowDelayOf(mergedOptions)), CreateComponent)];
    }

    /**
      The public `show()`: nothing unless the active content type has content; then a live
      component is shown at once, and otherwise one is created after the show delay.
     */
    method Show(env: Env)
      requires Valid() && !destroyed
      modifies this`pending, this`events, this`isTooltipVisible, tooltipComponent
      ensures Valid() && tooltipComponent == old(tooltipComponent)
      ensures pending == PendingAfterShow(old(pending), mergedOptions, content, tooltipComponent != null, now)
      ensures events == old(events) + EventsAfterShow(mergedOptions, content, tooltipComponent != null, PositionIn(env))
      ensures isTooltipVisible == (old(isTooltipVisible) || (HasContent(mergedOptions, content) && tooltipComponent != null))
      ensures tooltipComponent != null && !HasContent(mergedOptions, content) ==> unchanged(tooltipComponent)
      ensures tooltipComponent != null && HasContent(mergedOptions, content) ==>
                ComponentShown(env, old(tooltipComponent.currentPlacement), old(tooltipComponent.placementClasses))
    {
      if HasContent(mergedOptions, content) {
        if tooltipComponent != null {
          ShowTooltipCore(env);
        } else {
          CreateTooltip();
        }
      }
    }

    /** The public `hide()`: nothing unless the tooltip is visible; then `hideTooltip`. */
    method Hide(env: Env)
      requires Valid() && !destroyed
      modifies this`pending, this`events, this`isTooltipVisible, tooltipComponent
      ensures Valid() && tooltipComponent == old(tooltipComponent)
      ensures !old(isTooltipVisible) ==>
                pending == old(pending) && events == old(events) && !isTooltipVisible
                && (tooltipComponent != null ==> unchanged(tooltipComponent))
      ensures old(isTooltipVisible) ==>
                pending == ClearTimeouts(old(pending)) && !isTooltipVisible
                && events == old(events) + [Event(EventKind.Hide, PositionIn(env))]
                && tooltipComponent != null
                && tooltipComponent.HiddenFrom(old(tooltipComponent.CurrentLayout()), old(tooltipComponent.hostClassDisplayNone))
    {
      if isTooltipVisible {
        HideTooltipCore(env);
      }
    }

    /**
      Mouse enter or focus in on the host: in hover mode, cancels the pending timers and
      schedules `show()` after the show delay.
     */
    method MouseEnter(env: Env)
      requires Valid()
      modifies this`pending
      ensures Valid()
      ensures if !destroyed && IsDisplayOnHover(mergedOptions, env.touch)
              then pending == ClearTimeouts(old(pending)) + [Timer(now + Delay(ShowDelayOf(mergedOptions)), ShowAfterHover)]
              else pending == old(pending)
    {
      if !destroyed && IsDisplayOnHover(mergedOptions, env.touch) {
        var t := Timer(now + Delay(ShowDelayOf(mergedOptions)), ShowAfterHover);
        ClearTimeoutsNow();
        ClearThenSchedule(old(pending), t);
        pending := pending + [t];
      }
    }

    /**
      Mouse leave or focus out on the host: in hover mode, cancels the pending timers and
      schedules `hideTooltip` after `hideDelay` (not the touch-aware delay).
     */
    method MouseLeave(env: Env)
      requires Valid()
      modifies this`pending
      ensures Valid()
      ensures if !destroyed && IsDisplayOnHover(mergedOptions, env.touch)
              then pending == ClearTimeouts(old(pending)) + [Timer(now + Delay(HideDelayOf(mergedOptions)), HideAfterHover)]
              else pending == old(pending)
    {
      if !destroyed && IsDisplayOnHover(mergedOptions, env.touch) {
        var t := Timer(now + Delay(HideDelayOf(mergedOptions)), HideAfterHover);
        ClearTimeoutsNow();
        ClearThenSchedule(old(pending), t);
        pending := pending + [t];
      }
    }

    /**
      Click on the host: in click mode, `show()`; then, when `hideDelayAfterClick` is positive,
      the hide after that delay replaces any earlier one.
     */
    method HostClick(env: Env)
      requires Valid()
      modifies this`pending, this`events, this`isTooltipVisible, tooltipComponent
      ensures Valid() && tooltipComponent == old(tooltipComponent)
      ensures destroyed || !IsDisplayOnClick(mergedOptions, env.touch) ==>
                pending == old(pending) && events == old(events) && isTooltipVisible == old(isTooltipVisible)
                && (tooltipComponent != null ==> unchanged(tooltipComponent))
      ensures !destroyed && IsDisplayOnClick(mergedOptions, env.touch) ==>
                var shown := PendingAfterShow(old(pending), mergedOptions, content, tooltipComponent != null, now);
                events == old(events) + EventsAfterShow(mergedOptions, content, tooltipComponent != null, PositionIn(env))
                && isTooltipVisible == (old(isTooltipVisible) || (HasContent(mergedOptions, content) && tooltipComponent != null))
                && pending == (match ClickHideDelay(mergedOptions)
                               case Some(d) => Cancel(shown, HideAfterClick) + [Timer(now + d, HideAfterClick)]
                               case None => shown)
                && (tooltipComponent != null && !HasContent(mergedOptions, content) ==> unchanged(tooltipComponent))
                && (tooltipComponent != null && HasContent(mergedOptions, content) ==>
                      ComponentShown(env, old(tooltipComponent.currentPlacement), old(tooltipComponent.placementClasses)))
    {
      if !destroyed && IsDisplayOnClick(mergedOptions, env.touch) {
        Show(env);
        ArmClickHide();
      }
    }

    /** The host-click pipeline's `switchMap`: a positive `hideDelayAfterClick` replaces the pending click hide. */
    method ArmClickHide()
      requires Valid() && !destroyed
      modifies this`pending
      ensures Valid()
      ensures pending == match ClickHideDelay(mergedOptions)
                         case Some(d) => Cancel(old(pending), HideAfterClick) + [Timer(now + d, HideAfterClick)]
                         case None => old(pending)
    {
      match ClickHideDelay(mergedOptions)
      case Some(d) =>
        var t := Timer(now + d, HideAfterClick);
        CancelThenSchedule(pending, t);
        pending := Cancel(pending, HideAfterClick) + [t];
      case None =>
    }

    /** Click on the tooltip itself: in click mode, a visible tooltip is hidden. */
    method TooltipClick(env: Env)
      requires Valid()
      modifies this`pending, this`events, this`isTooltipVisible, tooltipComponent
      ensures Valid() && tooltipComponent == old(tooltipComponent)
      ensures if !destroyed && IsDisplayOnClick(mergedOptions, env.touch) && old(isTooltipVisible)
              then pending == ClearTimeouts(old(pending)) && !isTooltipVisible
                   && events == old(events) + [Event(EventKind.Hide, PositionIn(env))]
                   && tooltipComponent != null
                   && tooltipComponent.HiddenFrom(old(tooltipComponent.CurrentLayout()), old(tooltipComponent.hostClassDisplayNone))
              else pending == old(pending) && events == old(events) && isTooltipVisible == old(isTooltipVisible)
                   && (tooltipComponent != null ==> unchanged(tooltipComponent))
    {
      if !destroyed && tooltipComponent != null && IsDisplayOnClick(mergedOptions, env.touch) && isTooltipVisible {
        HideTooltipCore(env);
      }
    }

    /** Scroll or resize: opens an audit window unless one is open. */
    method ScrollOrResize()
      requires Valid()
      modifies this`pending
      ensures Valid()
      ensures pending == if destroyed || Has(old(pending), Reposition) then old(pending)
                         else old(pending) + [Timer(now + AuditWindow, Reposition)]
    {
      if !destroyed && !Has(pending, Reposition) {
        AppendKeepsAtMostOnce(pending, Timer(now + AuditWindow, Reposition));
        pending := pending + [Timer(now + AuditWindow, Reposition)];
      }
    }

    /** `appendComponentToBody`: a new component becomes the directive's component. */
    method AppendComponentToBody()
      requires Valid() && !destroyed && tooltipComponent == null && !Has(pending, CreateComponent)
      modifies this`tooltipComponent
      ensures Core() && tooltipComponent != null && fresh(tooltipComponent)
      ensures !tooltipComponent.hostClassShow && !tooltipComponent.hostClassHide
      ensures tooltipComponent.currentPlacement == Undef && tooltipComponent.placementClasses == {}
    {
      tooltipComponent := new TooltipComponent();
    }

    /**
      The end of the scroll/resize audit window: a visible tooltip is anchored at the host's
      current position and `setPosition` runs again; otherwise nothing happens.
     */
    method RepositionNow(env: Env)
      requires Valid()
      modifies tooltipComponent
      ensures Valid()
      ensures tooltipComponent != null && isTooltipVisible ==>
                tooltipComponent.Repositioned(old(tooltipComponent.CurrentLayout()), PositionIn(env), env.measure)
                && tooltipComponent.hostClassShow == old(tooltipComponent.hostClassShow)
                && tooltipComponent.hostClassHide == old(tooltipComponent.hostClassHide)
                && tooltipComponent.hostClassDisplayNone == old(tooltipComponent.hostClassDisplayNone)
      ensures tooltipComponent != null && !isTooltipVisible ==> unchanged(tooltipComponent)
    {
      if isTooltipVisible && tooltipComponent != null {
        tooltipComponent.hostElementPosition := PositionIn(env);
        tooltipComponent.SetPosition(env.measure);
      }
    }

    /**
      The earliest pending timer fires: the clock moves to its due time, it leaves the list, and
      its action runs: `show()` for a hover show, `hideTooltip` for a hide, the component's
      creation and `showTooltip` for a creation, `RepositionNow` for an audit.
     */
    method Fire(env: Env)
      requires Valid() && pending != []
      modifies this`now, this`pending, this`events, this`isTooltipVisible, this`tooltipComponent, tooltipComponent
      ensures Valid()
      ensures var i := Earliest(old(pending));
              var t := old(pending)[i];
              var rest := RemoveAt(old(pending), i);
              var c := old(tooltipComponent);
              now == t.due
              && (t.action == ShowAfterHover ==>
                    tooltipComponent == c
                    && pending == PendingAfterShow(rest, mergedOptions, content, c != null, now)
                    && events == old(events) + EventsAfterShow(mergedOptions, content, c != null, PositionIn(env))
                    && isTooltipVisible == (old(isTooltipVisible) || (HasContent(mergedOptions, content) && c != null))
                    && (c != null && !HasContent(mergedOptions, content) ==> unchanged(c))
                    && (c != null && HasContent(mergedOptions, content) ==>
                          ComponentShown(env, old(c.currentPlacement), old(c.placementClasses))))
              && ((t.action == HideAfterHover || t.action == HideAfterClick) ==>
                    tooltipComponent == c && pending == ClearTimeouts(rest) && !isTooltipVisible
                    && events == old(events) + (if old(isTooltipVisible) then [Event(EventKind.Hide, PositionIn(env))] else [])
                    && (c != null && !old(isTooltipVisible) ==> unchanged(c))
                    && (c != null && old(isTooltipVisible) ==>
                          c.HiddenFrom(old(c.CurrentLayout()), old(c.hostClassDisplayNone))))
              && (t.action == CreateComponent ==>
                    c == null && tooltipComponent != null && fresh(tooltipComponent)
                    && pending == ClearTimeouts(rest) && isTooltipVisible
                    && events == old(events) + [Event(EventKind.Show, PositionIn(env))]
                    && ComponentShown(env, Undef, {}))
              && (t.action == Reposition ==>
                    tooltipComponent == c && pending == rest
                    && events == old(events) && isTooltipVisible == old(isTooltipVisible)
                    && (c != null && isTooltipVisible ==>
                          c.Repositioned(old(c.CurrentLayout()), PositionIn(env), env.measure)
                          && c.hostClassShow == old(c.hostClassShow) && c.hostClassHide == old(c.hostClassHide)
                          && c.hostClassDisplayNone == old(c.hostClassDisplayNone))
                    && (c != null && !isTooltipVisible ==> unchanged(c)))
    {
      var i := Earliest(pending);
      var t := pending[i];
      RemoveAtKeepsAtMostOnce(pending, i);
      pending := RemoveAt(pending, i);
      now := t.due;
      match t.action
      case ShowAfterHover =>
        Show(env);
      case HideAfterHover =>
        HideTooltipCore(env);
      case HideAfterClick =>
        HideTooltipCore(env);
      case CreateComponent =>
        AppendComponentToBody();
        ShowTooltipCore(env);
      case Reposition =>
        RepositionNow(env);
    }

    /**
      A CSS transition of the component ended: the component announces `shown` when shown or
      `hidden` when hidden (and a hidden one stops being displayed), and the directive relays it.
     */
    method TransitionEnd(env: Env)
      requires Valid()
      modifies this`events, tooltipComponent
      ensures Valid()
      ensures tooltipComponent == null ==> events == old(events)
      ensures tooltipComponent != null ==>
                events == old(events) + [Event(if isTooltipVisible then Shown else Hidden, PositionIn(env))]
                && tooltipComponent.CurrentLayout() == old(tooltipComponent.CurrentLayout())
                && tooltipComponent.hostClassShow == old(tooltipComponent.hostClassShow)
                && tooltipComponent.hostClassHide == old(tooltipComponent.hostClassHide)
                && tooltipComponent.hostClassDisplayNone == (old(tooltipComponent.hostClassDisplayNone) || !isTooltipVisible)
    {
      if tooltipComponent != null {
        var emitted := tooltipComponent.TransitionEnd();
        var relayed := ForwardAll(emitted, PositionIn(env));
        assert relayed == [Event(if isTooltipVisible then Shown else Hidden, PositionIn(env))] by {
          assert emitted == [TypedObject(if isTooltipVisible then "shown" else "hidden")];
          assert emitted[1..] == [];
          assert relayed == Forward(emitted[0], PositionIn(env)) + ForwardAll(emitted[1..], PositionIn(env));
        }
        events := events + relayed;
      }
    }

    /**
      `destroyTooltip`: cancels every timer, fires `destroy$` (ending every pipeline), and drops
      the component; a live component that was visible emits `hide` then `hidden`.
     */
    method DestroyTooltip(env: Env)
      requires Valid()
      modifies this`pending, this`events, this`tooltipComponent, this`destroyed
      ensures Valid() && destroyed && pending == [] && tooltipComponent == null
      ensures events == old(events) + (if old(tooltipComponent) != null && isTooltipVisible
                                       then [Event(EventKind.Hide, PositionIn(env)), Event(Hidden, PositionIn(env))]
                                       else [])
    {
      pending := [];
      if tooltipComponent != null {
        var visibleAtStart := isTooltipVisible;
        if visibleAtStart {
          events := events + [Event(EventKind.Hide, PositionIn(env))];
        }
        if visibleAtStart {
          events := events + [Event(Hidden, PositionIn(env))];
        }
      }
      tooltipComponent := null;
      destroyed := true;
    }

    /** `ngOnDestroy`: `destroyTooltip`, then the subjects are closed, so it can run only once. */
    method NgOnDestroy(env: Env)
      requires Valid() && !destroyed
      modifies this`pending, this`events, this`tooltipComponent, this`destroyed
      ensures Valid() && destroyed && pending == [] && tooltipComponent == null
      ensures events == old(events) + (if old(tooltipComponent) != null && isTooltipVisible
                                       then [Event(EventKind.Hide, PositionIn(env)), Event(Hidden, PositionIn(env))]
                                       else [])
    {
      DestroyTooltip(env);
    }
  }

  /**
    The first hover over a host with a show delay of 500 ms: the hover pipeline waits 500 ms
    before `show()`, and `show()` then schedules the creation 500 ms later, so the tooltip
    appears 1000 ms after the hover.
   */
  method FirstHoverWaitsShowDelayTwice(d: TooltipDirective, env: Env)
    requires d.Valid() && !d.destroyed && d.tooltipComponent == null && d.pending == [] && d.now == 0.0
    requires IsDisplayOnHover(d.mergedOptions, env.touch) && HasContent(d.mergedOptions, d.content)
    requires ShowDelayOf(d.mergedOptions) == 500.0
    modifies d
    ensures d.Valid() && d.tooltipComponent != null && d.isTooltipVisible
    ensures d.now == 1000.0 && d.pending == []
    ensures d.events == old(d.events) + [Event(EventKind.Show, d.PositionIn(env))]
  {
    d.MouseEnter(env);
    assert ClearTimeouts([]) == [];
    assert d.pending == [Timer(500.0, ShowAfterHover)];
    HoverShowThenCreation(d, env, 500.0);
  }

  /**
    Last trigger wins: a second hover 200 ms after the first cancels the pending show and
    restarts the delay, so exactly one `show` is emitted, 1200 ms after the first hover.
   */
  method SecondHoverRestartsTheDelay(d: TooltipDirective, env: Env)
    requires d.Valid() && !d.destroyed && d.tooltipComponent == null && d.pending == [] && d.now == 0.0
    requires IsDisplayOnHover(d.mergedOptions, env.touch) && HasContent(d.mergedOptions, d.content)
    requires ShowDelayOf(d.mergedOptions) == 500.0
    modifies d
    ensures d.Valid() && d.tooltipComponent != null && d.isTooltipVisible
    ensures d.now == 1200.0 && d.pending == []
    ensures d.events == old(d.events) + [Event(EventKind.Show, d.PositionIn(env))]
  {
    d.MouseEnter(env);
    assert ClearTimeouts([]) == [];
    assert d.pending == [Timer(500.0, ShowAfterHover)];
    d.AdvanceTo(200.0);
    d.MouseEnter(env);
    assert ClearTimeouts([Timer(500.0, ShowAfterHover)]) == [];
    assert d.pending == [Timer(700.0, ShowAfterHover)];
    HoverShowThenCreation(d, env, 700.0);
  }

  /**
    The tail both hover scenarios share: the only pending timer is the hover show due at `due`;
    it runs `show()`, which schedules the creation one show delay later, and the creation
    appends the component and shows it.
   */
  method HoverShowThenCreation(d: TooltipDirective, env: Env, due: real)
    requires d.Valid() && !d.destroyed && d.tooltipComponent == null && d.now <= due
    requires d.pending == [Timer(due, ShowAfterHover)]
    requires HasContent(d.mergedOptions, d.content) && ShowDelayOf(d.mergedOptions) >= 0.0
    modifies d
    ensures d.Valid() && d.tooltipComponent != null && d.isTooltipVisible
    ensures d.mergedOptions == old(d.mergedOptions)
    ensures d.now == due + ShowDelayOf(d.mergedOptions) && d.pending == []
    ensures d.events == old(d.events) + [Event(EventKind.Show, d.PositionIn(env))]
  {
    d.Fire(env);
    assert d.pending == [Timer(due + ShowDelayOf(d.mergedOptions), CreateComponent)];
    d.Fire(env);
  }

  /**
    Options that meet the hover scenarios' requirements: a `showDelay` input of 500 over the
    defaults gives hover display, a 500 ms show delay, string content for a non-empty string,
    and the host's bounding rectangle as its position.
   */
  lemma HoverScenarioOptions(env: Env)
    ensures var o := Merge(Defaults(), map[], map[], map[ShowDelay := Num(500.0)]);
            IsDisplayOnHover(o, env.touch) && ShowDelayOf(o) == 500.0
            && HasContent(o, Content("Hello", false, false))
            && HostElementPosition(o, env.rectTop, env.rectLeft) == DomRect(env.rectTop, env.rectLeft)
  {
    var o := Merge(Defaults(), map[], map[], map[ShowDelay := Num(500.0)]);
    assert o[ShowDelay] == Num(500.0);
    assert o[Display] == Bool(true) && o[DisplayTouchscreen] == Bool(true);
    assert o[Trigger] == Str("hover") && o[ContentType] == Str("string");
    assert Position !in o;
  }

  /**
    The first click on a host with no component yet, a show delay of 0 and a 2000 ms
    `hideDelayAfterClick`: the click schedules the creation and the click hide, but the
    creation's `showTooltip` runs `clearTimeouts$`, which wins the click hide's `race`. The
    tooltip is shown and no hide stays pending, so it is not hidden automatically. The creation
    is the only timer involved, so the program as written behaves the same way.
   */
  method FirstClickHideIsCancelledByCreation(d: TooltipDirective, env: Env)
    requires d.Valid() && !d.destroyed && d.tooltipComponent == null && d.pending == []
    requires IsDisplayOnClick(d.mergedOptions, env.touch) && HasContent(d.mergedOptions, d.content)
    requires ShowDelayOf(d.mergedOptions) == 0.0 && ClickHideDelay(d.mergedOptions) == Some(2000.0)
    modifies d
    ensures d.Valid() && d.tooltipComponent != null && d.isTooltipVisible
    ensures d.pending == [] && !Has(d.pending, HideAfterClick)
    ensures d.events == old(d.events) + [Event(EventKind.Show, d.PositionIn(env))]
  {
    var start := d.now;
    assert ClearTimeouts([]) == [];
    d.HostClick(env);
    assert Cancel([Timer(start, CreateComponent)], HideAfterClick) == [Timer(start, CreateComponent)];
    assert d.pending == [Timer(start, CreateComponent), Timer(start + 2000.0, HideAfterClick)];
    d.Fire(env);
  }

  /** `destroyTooltip` run twice: the second run finds no component and emits nothing more. */
  method DestroyTooltipTwiceEmitsOnce(d: TooltipDirective, env: Env)
    requires d.Valid()
    modifies d
    ensures d.destroyed && d.tooltipComponent == null && d.pending == []
    ensures d.events == old(d.events) + (if old(d.tooltipComponent) != null && old(d.isTooltipVisible)
                                          then [Event(EventKind.Hide, d.PositionIn(env)), Event(Hidden, d.PositionIn(env))]
                                          else [])
  {
    d.DestroyTooltip(env);
    var afterFirst := d.events;
    d.DestroyTooltip(env);
    assert d.events == afterFirst;
  }
}
