# ng2-tooltip-directive, modelled in Dafny

This project models ng2-tooltip-directive, an Angular attribute directive that shows a tooltip
next to its host element. It covers two parts:

- the placement engine of the tooltip component. The component computes the tooltip's
  coordinates for six placements (`top`, `top-left`, `bottom`, `bottom-left`, `left`,
  `right`), tests whether they stay inside the viewport, and falls back through a fixed list
  of candidates.
- the directive's option resolution and its visibility lifecycle. Options come in four
  layers: defaults, module options, the options object and individual inputs. Hover, focus
  and click events schedule delayed shows and hides. Those timers are cancellable, and a
  later trigger replaces an earlier one. Scroll and resize events schedule a reposition of a
  visible tooltip. The directive emits `show` and `hide` events. As corrected here (see
  "## Findings"), it also relays the component's `shown` and `hidden` events.

Modules:

- `Geometry`: the coordinate formulas, the viewport test, and `Resolve`, which says which
  placement `setPosition` applies.
- `Options`: the option layers and their shallow merge (`Object.assign`), and the readers
  the directive applies to the merged options.
- `Component`: `class TooltipComponent`, with the component's placement state, its style and
  class bindings, and `setPosition` as a loop over the candidates.
- `Timers`: the pending RxJS timers as one list in scheduling order.
  - `clearTimeouts$` and `switchMap` become removals from that list.
  - `auditTime` becomes a single pending entry.
- `Directive`: `class TooltipDirective`. Every host event, public method and timer expiry is
  a method, proved against the functions above. The class runs the CORRECTED program of
  both "## Findings" rows, not the program as written:
  - its `clearTimeouts$` is `Timers.ClearTimeouts`, which also cancels a pending creation;
  - it relays component events through `Directive.Forward`, by the object's `type`.

  The as-written behaviour is modelled separately (`Timers.ClearTimeoutsAsWritten`,
  `Directive.ForwardAsWritten`), with lemmas that exhibit the difference. The class keeps an
  invariant (`Valid`):
  - at most one pending timer per kind;
  - no creation is pending while a component exists;
  - a visible tooltip has a live component;
  - the component's show/hide classes agree with the directive's visibility flag.

Time and the DOM are parameters. The clock advances only through `AdvanceTo` and `Fire`.
`AdvanceTo` may not pass a pending timer. `Fire` runs the earliest pending timer. The host's
bounding rectangle, element sizes, scroll offset, viewport size and touch detection arrive as
an `Env`/`Measure` value with each event.

## Model

| member | source | states |
|---|---|---|
| Geometry.ParsePlacement | projects/ng2-tooltip-directive/src/lib/tooltip.component.ts:194-220 | a string read as a placement is that placement's name; anything else is no placement |
| Geometry.ParsePlacementName | projects/ng2-tooltip-directive/src/lib/tooltip.component.ts:194-220 | each of the six placement names is recognised as its own placement |
| Geometry.ComputePosition | projects/ng2-tooltip-directive/src/lib/tooltip.component.ts:194-220 | above or below the host the tooltip keeps a gap of exactly `offset`, and the same beside it; `top`/`bottom` share the host's horizontal centre, `left`/`right` its vertical centre; the `-left` variants are flush with the host's left edge |
| Geometry.PlacementClearsHost | projects/ng2-tooltip-directive/src/lib/tooltip.component.ts:194-220 | with non-negative sizes and offset, the tooltip lies wholly on the named side of the host and never overlaps it |
| Geometry.CustomPointIsZeroSizedHost | projects/ng2-tooltip-directive/src/lib/tooltip.component.ts:178-189 | a custom `{top, left}` anchor is placed exactly like a zero-sized host at that point |
| Geometry.FirstFit | projects/ng2-tooltip-directive/src/lib/tooltip.component.ts:99-106 | the index found is the first candidate from `from` on that fits; when none is found, none of them fits |
| Geometry.Fits | projects/ng2-tooltip-directive/src/lib/tooltip.component.ts:224-233 | a position fits exactly when the tooltip's top and left edges are not negative, its bottom edge is within `innerHeight + scrollY`, and its right edge within the body's width |
| Geometry.Resolve | projects/ng2-tooltip-directive/src/lib/tooltip.component.ts:86-114 | the placement applied, in every case: auto-placement off gives the request; a request that fits is kept; the last-resort path is taken exactly when nothing fits, and then applies the previous placement or else the request; otherwise the result fits, and a replacement is the first fitting candidate in `bottom-left, bottom, top-left, left, top, right` order |
| Geometry.UnknownPlacementIsKept | projects/ng2-tooltip-directive/src/lib/tooltip.component.ts:223-239 | a placement that is none of the six, whether an unrecognised string or undefined, passes the viewport test (every comparison with undefined coordinates is false), so it is applied as is, without the last-resort path |
| Geometry.ShortViewportKeepsRequested | projects/ng2-tooltip-directive/src/lib/tooltip.component.ts:96-112 | host (100,50) 20x10, tooltip 40x10, offset 8: `top` is at (82,40); in a 70-pixel-high viewport nothing fits, and `top` is applied on the last-resort path |
| Geometry.HostNearTopFallsBackToBottomLeft | projects/ng2-tooltip-directive/src/lib/tooltip.component.ts:89-106 | a host 10 pixels from the top has no room for `top`, which falls back to `bottom-left` |
| Options.Defaults | projects/ng2-tooltip-directive/src/lib/default-options.const.ts:3-25 | the defaults layer holds exactly the keys that have a default (not `width`, not `position`), each with its default value |
| Options.Merge | projects/ng2-tooltip-directive/src/lib/tooltip.directive.ts:455-462 | the merged options hold every key of any layer; each key takes the value of the highest layer holding it: inputs, then options object, then module options, then defaults |
| Options.ClickHideDelay | projects/ng2-tooltip-directive/src/lib/tooltip.directive.ts:272-275 | a click arms a hide exactly when `hideDelayAfterClick` is a positive number, after that many milliseconds |
| Options.HostElementPosition | projects/ng2-tooltip-directive/src/lib/tooltip.directive.ts:170-172 | the anchor is the custom point with the `position` option's coordinates when that option is set, and the host's bounding rectangle with its top and left otherwise |
| Options.HoverAndClickExclusive | projects/ng2-tooltip-directive/src/lib/tooltip.directive.ts:174-190 | hover display and click display are never both on |
| Options.IsDisplayOnHover | projects/ng2-tooltip-directive/src/lib/tooltip.directive.ts:174-181 | hover mode exactly when the trigger is `hover`, `display` is not `false`, and on a touch device `displayTouchscreen` is not `false` |
| Options.IsDisplayOnClick | projects/ng2-tooltip-directive/src/lib/tooltip.directive.ts:183-190 | click mode exactly when the trigger is `click`, `display` is not `false`, and on a touch device `displayTouchscreen` is not `false` |
| Options.DisplayInputWins | projects/ng2-tooltip-directive/src/lib/tooltip.directive.ts:174-190 | an individual `display = false` input switches both triggers off, whatever the other layers say |
| Options.DefaultsShowOnHover | projects/ng2-tooltip-directive/src/lib/default-options.const.ts:15-19 | with no options above the defaults, the tooltip shows on hover and not on click, on any device |
| Options.DefaultDelays | projects/ng2-tooltip-directive/src/lib/tooltip.directive.ts:165-167 | with no options above the defaults: show delay 0, hide delay 300 also on touch devices (the touchscreen default 0 is falsy), no hide after a click |
| Options.PlacementOf | projects/ng2-tooltip-directive/src/lib/tooltip.component.ts:150 | the component's `originalPlacement` is the merged `placement` value unchanged: one of the six names as that placement, any other string kept as that string, anything else undefined |
| Options.DefaultPlacement | projects/ng2-tooltip-directive/src/lib/default-options.const.ts:5-22 | with no options above the defaults: placement `top`, auto-placement on, offset 8 |
| Options.UndefinedInputShadowsLowerLayers | projects/ng2-tooltip-directive/src/lib/tooltip.directive.ts:461 | an input explicitly set to undefined replaces lower layers' values: a `showDelay` input set to undefined gives a show delay of 0 |
| Options.CalculatedHideDelayFallsThrough | projects/ng2-tooltip-directive/src/lib/tooltip.directive.ts:165-167 | off touch devices, or with a zero touchscreen delay, the touch-aware hide delay is `hideDelay ?? 0` |
| Options.CalculatedHideDelayOnTouch | projects/ng2-tooltip-directive/src/lib/tooltip.directive.ts:165-167 | on a touch device a non-zero `hideDelayTouchscreen` is the touch-aware hide delay |
| Options.CalculatedHideDelay | projects/ng2-tooltip-directive/src/lib/tooltip.directive.ts:165-168 | off a touch device the touch-aware hide delay is `hideDelay ?? 0`; on one it is either that or a non-zero numeric `hideDelayTouchscreen` |
| Component.TooltipComponent.constructor | projects/ng2-tooltip-directive/src/lib/tooltip.component.ts:48-54 | a new component has no placement, no placement classes, no styles, and neither the show nor the hide class |
| Component.TooltipComponent.SetHostStyle | projects/ng2-tooltip-directive/src/lib/tooltip.component.ts:174-240 | writes the styles of the placement, and reports true, exactly when there is no placement, or auto-placement is off or disabled for the call, or the position fits; otherwise leaves the styles alone and reports false |
| Component.TooltipComponent.SetPlacementClass | projects/ng2-tooltip-directive/src/lib/tooltip.component.ts:163-166 | records the placement as current and adds its class |
| Component.TooltipComponent.RemoveAllPlacementClasses | projects/ng2-tooltip-directive/src/lib/tooltip.component.ts:168-172 | removes the classes of the six placements and no other |
| Component.TooltipComponent.SetPosition | projects/ng2-tooltip-directive/src/lib/tooltip.component.ts:86-114 | the loop applies `Resolve`'s placement: current placement, styles and classes are those of the resolution (classes are replaced on a normal path and accumulate on the last-resort path) |
| Component.TooltipComponent.ShowTooltip | projects/ng2-tooltip-directive/src/lib/tooltip.component.ts:66-79 | takes the new placement settings and anchor, sets the shown class (not hidden, displayed), and is positioned as `Resolve` says |
| Component.TooltipComponent.HideTooltip | projects/ng2-tooltip-directive/src/lib/tooltip.component.ts:81-84 | switches from the shown to the hidden class |
| Component.TooltipComponent.TransitionEnd | projects/ng2-tooltip-directive/src/lib/tooltip.component.ts:122-141 | a shown element emits `{type: 'shown'}`; a hidden one becomes display-none and emits `{type: 'hidden'}` |
| Component.UnknownPreviousPlacementIsReapplied | projects/ng2-tooltip-directive/src/lib/tooltip.component.ts:96-112 | an unrecognised placement `center` is kept with the class `tooltip-center` and undefined styles; a later `top` in a viewport where nothing fits falls back to the previous `center`, writing undefined styles and keeping that class |
| Timers.Delay | projects/ng2-tooltip-directive/src/lib/tooltip.directive.ts:296 | a timer's delay equals the requested delay when that is not negative, and is exactly 0 when it is negative |
| Timers.Filter | projects/ng2-tooltip-directive/src/lib/tooltip.directive.ts:279 | a pending timer survives exactly when its action is kept |
| Timers.FilterKeepsOrder | projects/ng2-tooltip-directive/src/lib/tooltip.directive.ts:294-300 | cancelling timers keeps the survivors in scheduling order: filtering `p + q` gives the survivors of `p` followed by those of `q` |
| Timers.ClearTimeouts | projects/ng2-tooltip-directive/src/lib/tooltip.directive.ts:294-300 | (corrected) `clearTimeouts$` cancels every pending show, hide and creation; only the scroll/resize audit survives |
| Timers.ClearTimeoutsAsWritten | projects/ng2-tooltip-directive/src/lib/tooltip.directive.ts:351-366 | as written, `clearTimeouts$` also leaves a pending creation alone |
| Timers.Cancel | projects/ng2-tooltip-directive/src/lib/tooltip.directive.ts:274-280 | `switchMap` drops the pipeline's previous timer and nothing else |
| Timers.Earliest | projects/ng2-tooltip-directive/src/lib/tooltip.directive.ts:355 | the timer that fires next is due no later than any other, and before every timer scheduled ahead of it |
| Timers.FilterKeepsAtMostOnce | projects/ng2-tooltip-directive/src/lib/tooltip.directive.ts:294 | cancelling timers keeps at most one pending timer per action |
| Timers.AppendKeepsAtMostOnce | projects/ng2-tooltip-directive/src/lib/tooltip.directive.ts:295-300 | scheduling an action with none pending keeps at most one per action |
| Timers.RemoveAtKeepsAtMostOnce | projects/ng2-tooltip-directive/src/lib/tooltip.directive.ts:355-357 | a fired timer leaves the list: every other pending timer stays, and no timer for its action remains |
| Timers.ClearThenSchedule | projects/ng2-tooltip-directive/src/lib/tooltip.directive.ts:315-321 | clearing and then scheduling leaves exactly that timer for its action |
| Timers.CancelThenSchedule | projects/ng2-tooltip-directive/src/lib/tooltip.directive.ts:272-280 | a click replaces the pending click hide: exactly one remains |
| Timers.RemoveAtContents | projects/ng2-tooltip-directive/src/lib/tooltip.directive.ts:355-357 | removing the fired timer keeps exactly the timers at the other positions |
| Timers.CreationSurvivesClearAsWritten | projects/ng2-tooltip-directive/src/lib/tooltip.directive.ts:358 | as written, a pending creation survives `clearTimeouts$` |
| Timers.SecondShowDuplicatesCreationAsWritten | projects/ng2-tooltip-directive/src/lib/tooltip.directive.ts:351-366 | as written, a second `show()` before the first creation fires leaves two creations pending |
| Timers.SecondShowReplacesCreation | projects/ng2-tooltip-directive/src/lib/tooltip.directive.ts:351-366 | once `clearTimeouts$` cancels creations, a second `show()` leaves only its own creation |
| Directive.ForwardAsWrittenDropsComponentEvents | projects/ng2-tooltip-directive/src/lib/tooltip.directive.ts:389-391 | as written, no object the component emits is relayed, so `shown` and `hidden` never reach the directive's consumers |
| Directive.ForwardAsWritten | projects/ng2-tooltip-directive/src/lib/tooltip.directive.ts:389-391 | (as written) only the strings `'shown'` and `'hidden'` are relayed, as the matching event; every other value, the component's `{type}` objects included, relays nothing |
| Directive.Forward | projects/ng2-tooltip-directive/src/lib/tooltip.directive.ts:389-391 | relaying by the emitted object's `type`: `shown` becomes a `shown` event, `hidden` a `hidden` event, anything else nothing |
| Directive.HasContent | projects/ng2-tooltip-directive/src/lib/tooltip.directive.ts:232-234 | `show()` proceeds only for content type `string`, `html` or `template`, and then exactly when that type's payload is present (a non-empty string, an HTML or a template payload) |
| Directive.TooltipDirective.constructor | projects/ng2-tooltip-directive/src/lib/tooltip.directive.ts:201-227 | a directive has merged its inputs, has no component and no pending timer, is not visible, and keeps the invariant |
| Directive.TooltipDirective.NgOnChanges | projects/ng2-tooltip-directive/src/lib/tooltip.directive.ts:223-227 | inputs are recorded over earlier ones, and the merged options are recomputed from all four layers |
| Directive.TooltipDirective.AdvanceTo | projects/ng2-tooltip-directive/src/lib/tooltip.directive.ts:296 | time moves forward to an instant no pending timer is due before |
| Directive.TooltipDirective.ClearTimeoutsNow | projects/ng2-tooltip-directive/src/lib/tooltip.directive.ts:197 | (corrected) `clearTimeouts$.next()` leaves no creation pending and keeps the invariant |
| Directive.TooltipDirective.ShowTooltipCore | projects/ng2-tooltip-directive/src/lib/tooltip.directive.ts:397-417 | with a component: timers cancelled, `show` emitted at the host's position, visible, and the component shown with the merged placement, auto-placement and offset at the host's position, its placement, styles and classes those `Resolve` gives from its previous placement; without one: nothing changes |
| Directive.TooltipDirective.HideTooltipCore | projects/ng2-tooltip-directive/src/lib/tooltip.directive.ts:419-430 | timers are always cancelled and afterwards the tooltip is not visible; only when it was visible is `hide` emitted and the component switched to the hidden class, its layout untouched; otherwise the component is unchanged |
| Directive.TooltipDirective.CreateTooltip | projects/ng2-tooltip-directive/src/lib/tooltip.directive.ts:351-366 | timers cancelled, and the creation scheduled after the show delay |
| Directive.TooltipDirective.Show | projects/ng2-tooltip-directive/src/lib/tooltip.directive.ts:231-243 | nothing without content for the content type (component unchanged); with a live component, shown at once and placed as `showTooltip` places it; otherwise a creation after the show delay |
| Directive.TooltipDirective.Hide | projects/ng2-tooltip-directive/src/lib/tooltip.directive.ts:245-249 | nothing unless visible (component unchanged); then timers cancelled, `hide` emitted, the component hidden with its layout untouched, not visible |
| Directive.TooltipDirective.MouseEnter | projects/ng2-tooltip-directive/src/lib/tooltip.directive.ts:287-305 | in hover mode, every pending show/hide is cancelled and `show()` scheduled after the show delay; otherwise nothing changes |
| Directive.TooltipDirective.MouseLeave | projects/ng2-tooltip-directive/src/lib/tooltip.directive.ts:308-326 | in hover mode, every pending show/hide is cancelled and the hide scheduled after `hideDelay`; otherwise nothing changes |
| Directive.TooltipDirective.HostClick | projects/ng2-tooltip-directive/src/lib/tooltip.directive.ts:267-284 | in click mode, `show()` (events, visibility and the component's placement as `Show` states) and then, for a positive `hideDelayAfterClick`, that click's hide replaces any earlier one; otherwise nothing changes, the component included |
| Directive.TooltipDirective.ArmClickHide | projects/ng2-tooltip-directive/src/lib/tooltip.directive.ts:272-280 | a positive `hideDelayAfterClick` replaces the pending click hide with one due after it |
| Directive.TooltipDirective.TooltipClick | projects/ng2-tooltip-directive/src/lib/tooltip.directive.ts:256-264 | in click mode a visible tooltip is hidden (timers cancelled, `hide` emitted, the component switched to the hidden class); otherwise nothing changes, the component included |
| Directive.TooltipDirective.ScrollOrResize | projects/ng2-tooltip-directive/src/lib/tooltip.directive.ts:329-348 | opens a 100 ms audit window unless one is open |
| Directive.TooltipDirective.RepositionNow | projects/ng2-tooltip-directive/src/lib/tooltip.directive.ts:338-344 | at the end of the audit window a visible component is anchored at the host's current position and its placement, styles and classes are re-resolved from its current placement, its show/hide/display classes kept; an invisible one is unchanged |
| Directive.TooltipDirective.AppendComponentToBody | projects/ng2-tooltip-directive/src/lib/tooltip.directive.ts:368-373 | a new, not yet shown component with no placement and no placement classes becomes the directive's |
| Directive.TooltipDirective.Fire | projects/ng2-tooltip-directive/src/lib/tooltip.directive.ts:296-366 | the earliest timer fires at its due time and leaves the list. A hover show runs `show()` with its visibility and component post-state; a hide runs `hideTooltip`, hiding a visible component; a creation appends a fresh component and shows it from no previous placement (`show` emitted, visible, remaining timers cancelled); an audit re-anchors a visible component at the host's position and re-resolves its placement, styles and classes, and otherwise leaves it unchanged. The invariant is kept |
| Directive.TooltipDirective.TransitionEnd | projects/ng2-tooltip-directive/src/lib/tooltip.directive.ts:386-394 | (corrected) a finished transition emits `shown` when the tooltip is visible and `hidden` when it is not; a hidden component stops being displayed and nothing else of it changes |
| Directive.TooltipDirective.DestroyTooltip | projects/ng2-tooltip-directive/src/lib/tooltip.directive.ts:432-453 | all timers and pipelines end and the component is dropped; a visible tooltip emits `hide` then `hidden` |
| Directive.TooltipDirective.NgOnDestroy | projects/ng2-tooltip-directive/src/lib/tooltip.directive.ts:464-468 | on a live directive, `destroyTooltip` and nothing more: the same end state and events |
| Directive.FirstHoverWaitsShowDelayTwice | projects/ng2-tooltip-directive/src/lib/tooltip.directive.ts:296-361 | the first hover with a 500 ms show delay shows the tooltip after 1000 ms: the delay is waited in the hover pipeline and again before creating the component |
| Directive.SecondHoverRestartsTheDelay | projects/ng2-tooltip-directive/src/lib/tooltip.directive.ts:291-300 | a second hover 200 ms after the first restarts the delay: exactly one `show`, at 1200 ms |
| Directive.HoverScenarioOptions | projects/ng2-tooltip-directive/src/lib/tooltip.directive.ts:455-462 | a `showDelay` input of 500 over the defaults meets both hover scenarios' requirements |
| Directive.HoverShowThenCreation | projects/ng2-tooltip-directive/src/lib/tooltip.directive.ts:296-366 | a pending hover show fires, `show()` schedules the creation one show delay later, and the creation shows the tooltip: one `show` event, nothing left pending |
| Directive.FirstClickHideIsCancelledByCreation | projects/ng2-tooltip-directive/src/lib/tooltip.directive.ts:270-279 | the first click with a show delay of 0 and `hideDelayAfterClick` 2000 shows the tooltip, but the creation's `clearTimeouts$` wins the click hide's `race`: no hide stays pending |
| Directive.DestroyTooltipTwiceEmitsOnce | projects/ng2-tooltip-directive/src/lib/tooltip.directive.ts:432-453 | two runs of `destroyTooltip` emit exactly `hide` then `hidden` when a visible component was held before the first, and nothing otherwise: the second run adds nothing |

## Left out

- Measurements are inputs. The DOM measurements are parameters of each event (`Env`,
  `Measure`): element sizes, scroll offset, viewport size, body width and the bounding
  rectangle. So is touch detection. An SVG host's size is one more such parameter.
- `Options.OffsetOf`: a missing or non-numeric `offset` is read as 0. The source computes
  `Number(offset)`, which can be NaN, and NaN coordinates then pass every viewport test.
  Only the unknown-placement case of that NaN behaviour is modelled (`UnknownPlacementIsKept`).
- Component.TooltipComponent.ShowTooltip: the `setTimeout` that defers the show classes and
  `setPosition` is collapsed. Positioning happens at the same instant as `show`.
- Directive.TooltipDirective: the class uses the corrected `clearTimeouts$` and the corrected
  relay, so it does not promise the as-written behaviour. As written, `clearTimeouts$` never
  cancels a pending creation (tooltip.directive.ts:358). So a later `show()` appends a second
  component, and a hover leave or a click hide that fires before the creation does not stop
  it: the tooltip then appears and stays visible. As written, the component's `shown` and
  `hidden` objects are never relayed (tooltip.directive.ts:389-391). So the directive emits
  `hidden` only from `destroyTooltip` (line 447), and never `shown`.
- Directive.TooltipDirective.NgOnDestroy: requires a live directive. A second `ngOnDestroy`
  throws in the source: `clearTimeouts$` is unsubscribed at tooltip.directive.ts:466, so
  `clearTimeouts$?.next()` at line 433 throws. `DestroyTooltip` itself may run twice.
- Directive.TooltipDirective.Show: requires a live directive. After `ngOnDestroy` the source's
  `show()` throws on the unsubscribed subject once it has content. The same holds for `hide()`
  on a visible tooltip.
- Styling pass-through is not modelled: z-index, `pointerEvents`, animation duration, theme,
  shadow, width, max-width, the custom classes, and the content fields the component receives.
  None of them affects placement or lifecycle.
- Ill-typed option values are not modelled (a string `showDelay`, say). A non-numeric delay
  reads as missing, and a non-string placement reads as undefined. A string placement that
  names none of the six is kept as it is (`PlacementValue.Other`).
- The `console.warn` calls and `isTooltipComponentDestroyed`'s DOM query are not modelled. A
  component counts as live while the directive holds it.
- Directive.TooltipDirective.TooltipClick: clicks on a component the directive no longer holds
  are not modelled. In the corrected model no component is ever orphaned.
- Directive.TooltipDirective.AdvanceTo: the environment delivers events in time order. An event
  is handled only once every timer due before it has fired.
- The touch-aware hide delay (`calculatedHideDelay`) is modelled with its lemmas, but no
  pipeline uses it: the source's leave pipeline waits `hideDelay`.
- The component's own `ngOnDestroy` and its `destroy$` are not modelled. Its subscriptions end
  with the directive's.
- The module providing the options (`tooltip.module.ts`) and the options service are not part
  of this model. Module options are the `initOptions` parameter.

## Findings

| source | as written | input that shows it | evidently intended | confidence | as-written member | corrected member |
|---|---|---|---|---|---|---|
| projects/ng2-tooltip-directive/src/lib/tooltip.directive.ts:389-391 | relays a component value only when it equals the string `'shown'` or `'hidden'`, but the component emits the objects `{type: 'shown'}` and `{type: 'hidden'}` (tooltip.component.ts:126,137) | any transition end on a shown tooltip: the component emits `{type: 'shown'}` and the directive emits nothing | relay by the object's `type`, so consumers receive `shown` and `hidden` | high; not executed | Directive.ForwardAsWrittenDropsComponentEvents | Directive.Forward |
| projects/ng2-tooltip-directive/src/lib/tooltip.directive.ts:358 | `takeUntil(this.destroy$ \|\| this.clearTimeouts$)` evaluates to `takeUntil(this.destroy$)`, so `clearTimeouts$` never cancels a pending creation | `show()` at 0 and again at 100 with a 500 ms show delay: two creations are pending, two components are appended and the first is orphaned; likewise a mouse leave before the creation fires does not stop it; and in click mode with a 1000 ms show delay and `hideDelayAfterClick` 500, the click hide at 500 does not cancel the creation, so the tooltip is shown at 1000 and stays visible | the creation is cancelled by `clearTimeouts$` like every other delayed action | high; not executed | Timers.SecondShowDuplicatesCreationAsWritten | Timers.SecondShowReplacesCreation |
