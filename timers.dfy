/**
  The delayed actions of the tooltip directive. Each RxJS `timer` the directive's pipelines
  subscribe to is a `Timer` in one list of pending timers, kept in the order they were scheduled;
  `race(timer, clearTimeouts$)`, `switchMap` and `takeUntil` become removals from that list.
 */
module Timers {

  /** What a pending timer does when it fires. */
  datatype Action =
    | ShowAfterHover   // hover/focus pipeline: `show()` after showDelay
    | HideAfterHover   // leave/blur pipeline: `hideTooltip()` after hideDelay
    | HideAfterClick   // host-click pipeline: `hideTooltip()` after hideDelayAfterClick
    | CreateComponent  // createTooltip: append the component, then `showTooltip()`, after showDelay
    | Reposition       // scroll/resize pipeline: reposition at the end of the audit window

  datatype Timer = Timer(due: real, action: Action)

  /** The `auditTime` window of the scroll/resize pipeline, in milliseconds. */
  const AuditWindow: real := 100.0

  /** An RxJS `timer(d)` with a negative delay fires as if the delay were 0. */
  function Delay(d: real): (r: real)
    ensures r >= 0.0 && (d >= 0.0 ==> r == d)
    ensures d < 0.0 ==> r == 0.0
  {
    if d < 0.0 then 0.0 else d
  }

  /** The timers of `p` whose action `keep` accepts, in their order. */
  function Filter(p: seq<Timer>, keep: Action -> bool): (r: seq<Timer>)
    ensures forall t :: t in r <==> t in p && keep(t.action)
    ensures |r| <= |p|
  {
    if p == [] then [] else (if keep(p[0].action) then [p[0]] else []) + Filter(p[1..], keep)
  }

  /** Filtering keeps the order: the survivors of `p + q` are those of `p`, then those of `q`. */
  lemma {:induction false} FilterKeepsOrder(p: seq<Timer>, q: seq<Timer>, keep: Action -> bool)
    ensures Filter(p + q, keep) == Filter(p, keep) + Filter(q, keep)
    decreases |p|
  {
    if p == [] {
      assert p + q == q;
    } else {
      assert (p + q)[0] == p[0];
      assert (p + q)[1..] == p[1..] + q;
      FilterKeepsOrder(p[1..], q, keep);
    }
  }

  /**
    Whether `clearTimeouts$.next()` cancels a timer: every delayed show, hide and creation does;
    the scroll/resize audit does not.
   */
  predicate CancelledByClear(a: Action)
  {
    a != Reposition
  }

  /** `clearTimeouts$.next()`: only the scroll/resize audit survives. */
  function ClearTimeouts(p: seq<Timer>): (r: seq<Timer>)
    ensures forall t :: t in r <==> t in p && t.action == Reposition
  {
    Filter(p, a => !CancelledByClear(a))
  }

  /**
    `clearTimeouts$.next()` as written: the creation timer is subscribed with
    `takeUntil(this.destroy$ || this.clearTimeouts$)`, and `destroy$ || clearTimeouts$` is just
    `destroy$` (a subject is truthy), so the creation timer is not cancelled.
   */
  function ClearTimeoutsAsWritten(p: seq<Timer>): (r: seq<Timer>)
    ensures forall t :: t in r <==> t in p && (t.action == Reposition || t.action == CreateComponent)
  {
    Filter(p, a => a == Reposition || a == CreateComponent)
  }

  /** `switchMap` unsubscribing the previous inner timer of a pipeline. */
  function Cancel(p: seq<Timer>, a: Action): (r: seq<Timer>)
    ensures forall t :: t in r <==> t in p && t.action != a
  {
    Filter(p, b => b != a)
  }

  /** Whether a timer for `a` is pending. */
  predicate Has(p: seq<Timer>, a: Action)
  {
    exists t :: t in p && t.action == a
  }

  /** At most one pending timer per action. */
  predicate AtMostOnce(p: seq<Timer>)
    decreases |p|
  {
    p == [] || ((forall t :: t in p[1..] ==> t.action != p[0].action) && AtMostOnce(p[1..]))
  }

  /** The timer due first; among timers due at the same time, the one scheduled first. */
  function Earliest(p: seq<Timer>): (i: nat)
    requires p != []
    ensures i < |p|
    ensures forall j :: 0 <= j < |p| ==> p[i].due <= p[j].due
    ensures forall j :: 0 <= j < i ==> p[i].due < p[j].due
    decreases |p|
  {
    if |p| == 1 then 0
    else
      var k := Earliest(p[..|p| - 1]);
      if p[|p| - 1].due < p[k].due then |p| - 1 else k
  }

  /** The pending list without its `i`th timer. */
  function RemoveAt(p: seq<Timer>, i: nat): seq<Timer>
    requires i < |p|
  {
    p[..i] + p[i + 1..]
  }

  // ---------------------------------------------------------------------------------------
  // At most one pending timer per action

  lemma {:induction false} FilterKeepsAtMostOnce(p: seq<Timer>, keep: Action -> bool)
    requires AtMostOnce(p)
    ensures AtMostOnce(Filter(p, keep))
    decreases |p|
  {
    if p != [] {
      FilterKeepsAtMostOnce(p[1..], keep);
      var rest := Filter(p[1..], keep);
      if keep(p[0].action) {
        assert Filter(p, keep) == [p[0]] + rest;
        assert ([p[0]] + rest)[1..] == rest;
        forall t | t in rest ensures t.action != p[0].action {
          assert t in p[1..];
        }
      } else {
        assert Filter(p, keep) == rest;
      }
    }
  }

  lemma {:induction false} AppendKeepsAtMostOnce(p: seq<Timer>, t: Timer)
    requires AtMostOnce(p) && !Has(p, t.action)
    ensures AtMostOnce(p + [t])
    decreases |p|
  {
    if p != [] {
      assert (p + [t])[1..] == p[1..] + [t];
      assert p[0] in p;
      assert !Has(p[1..], t.action) by {
        forall u | u in p[1..] ensures u.action != t.action {
          assert u in p;
        }
      }
      AppendKeepsAtMostOnce(p[1..], t);
    }
  }

  /** Removing the `i`th timer keeps every other timer and adds none. */
  lemma RemoveAtContents(p: seq<Timer>, i: nat)
    requires i < |p|
    ensures forall t :: t in RemoveAt(p, i) ==> t in p
    ensures forall j :: 0 <= j < |p| && j != i ==> p[j] in RemoveAt(p, i)
  {
    forall j | 0 <= j < |p| && j != i ensures p[j] in RemoveAt(p, i) {
      if j < i {
        assert RemoveAt(p, i)[j] == p[j];
      } else {
        assert RemoveAt(p, i)[j - 1] == p[j];
      }
    }
  }

  /** Removing a timer keeps the others, and leaves no timer for its action. */
  lemma {:induction false} RemoveAtKeepsAtMostOnce(p: seq<Timer>, i: nat)
    requires AtMostOnce(p) && i < |p|
    ensures AtMostOnce(RemoveAt(p, i))
    ensures forall t :: t in RemoveAt(p, i) ==> t in p
    ensures forall j :: 0 <= j < |p| && j != i ==> p[j] in RemoveAt(p, i)
    ensures !Has(RemoveAt(p, i), p[i].action)
    decreases |p|
  {
    RemoveAtContents(p, i);
    if i == 0 {
      assert RemoveAt(p, i) == p[1..];
    } else {
      RemoveAtKeepsAtMostOnce(p[1..], i - 1);
      assert RemoveAt(p, i) == [p[0]] + RemoveAt(p[1..], i - 1);
      assert p[i] == p[1..][i - 1];
      assert p[i] in p[1..];
    }
  }

  /**
    `clearTimeouts$.next()` followed by scheduling one cancellable timer leaves exactly one
    timer for that action, and keeps at most one timer per action.
   */
  lemma ClearThenSchedule(p: seq<Timer>, t: Timer)
    requires AtMostOnce(p) && CancelledByClear(t.action)
    ensures AtMostOnce(ClearTimeouts(p) + [t])
    ensures forall u :: u in ClearTimeouts(p) + [t] && u.action == t.action ==> u == t
  {
    FilterKeepsAtMostOnce(p, a => !CancelledByClear(a));
    AppendKeepsAtMostOnce(ClearTimeouts(p), t);
  }

  /** A pipeline's `switchMap` scheduling a timer replaces that pipeline's pending one. */
  lemma CancelThenSchedule(p: seq<Timer>, t: Timer)
    requires AtMostOnce(p)
    ensures AtMostOnce(Cancel(p, t.action) + [t])
    ensures forall u :: u in Cancel(p, t.action) + [t] && u.action == t.action ==> u == t
  {
    FilterKeepsAtMostOnce(p, b => b != t.action);
    AppendKeepsAtMostOnce(Cancel(p, t.action), t);
  }

  /**
    As written, `clearTimeouts$` does not reach a pending creation: after a mouse leave, the
    creation scheduled by an earlier `show()` still fires.
   */
  lemma CreationSurvivesClearAsWritten()
    ensures ClearTimeoutsAsWritten([Timer(1000.0, CreateComponent)]) == [Timer(1000.0, CreateComponent)]
  {
    assert Timer(1000.0, CreateComponent) in ClearTimeoutsAsWritten([Timer(1000.0, CreateComponent)]);
  }

  /**
    As written, a second `show()` before the first creation fires leaves two creations pending
    (two components get appended, the first one orphaned).
   */
  lemma SecondShowDuplicatesCreationAsWritten()
    ensures var p := ClearTimeoutsAsWritten([Timer(500.0, CreateComponent)]) + [Timer(600.0, CreateComponent)];
            !AtMostOnce(p)
  {
    var first := Timer(500.0, CreateComponent);
    var p := ClearTimeoutsAsWritten([first]) + [Timer(600.0, CreateComponent)];
    assert first in ClearTimeoutsAsWritten([first]);
    assert p[0] == first;
    assert Timer(600.0, CreateComponent) in p[1..];
  }

  /** With the creation timer cancelled by `clearTimeouts$`, a second `show()` leaves one creation pending. */
  lemma SecondShowReplacesCreation()
    ensures var p := ClearTimeouts([Timer(500.0, CreateComponent)]) + [Timer(600.0, CreateComponent)];
            p == [Timer(600.0, CreateComponent)] && AtMostOnce(p)
  {
    assert ClearTimeouts([Timer(500.0, CreateComponent)]) == [];
  }
}
