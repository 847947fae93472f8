/**
 One event collector with its timed listener, its timer in the cluster and the events that reach
 it, as a machine driven by inputs in any order.

 A timed listener stops its timer by marking the handle as deleted; the stop callback, which
 delivers the collected list, runs only when tick_timers next finds the timer due, or when the
 cluster shuts down.
 */
module CollectorRuns {
  import opened Prelude

  datatype Input<E> =
    | Event(e: E)         // the router calls its listeners
    | Tick(now: nat)      // the socket engine calls tick_timers
    | Cancel              // collector::cancel
    | Destroy             // the destructor
    | Shutdown            // cluster::shutdown, after the engine thread has joined

  datatype Setup = Setup(start: nat, duration: nat)

  /**
   `listener` is whether the timed listener still exists, `attached` whether the router still
   calls it, `queued` whether the timer is in next_timer, `stopping` whether its handle is in
   deleted_timers. `late` counts stop callbacks that found the collector already destroyed.
   */
  datatype World<C> = World(
    alive: bool,
    listener: bool,
    attached: bool,
    queued: bool,
    stopping: bool,
    nextTick: nat,
    frequency: nat,
    stored: seq<C>,
    triggered: bool,
    completed: seq<seq<C>>,
    late: nat,
    releases: nat)

  function Begin<C>(s: Setup): World<C> {
    World(true, true, true, true, false, s.start + s.duration, s.duration, [], false, [], 0, 0)
  }

  /** The lambda given to the timed listener as its stop callback. */
  function OnStop<C>(w: World<C>): World<C> {
    if !w.alive then w.(late := w.late + 1)
    else if w.triggered then w
    else w.(triggered := true, completed := w.completed + [w.stored])
  }

  /** One iteration of tick_timers that finds this timer at the head of the queue and due. */
  function TickOnce<C>(w: World<C>): World<C> {
    if !w.stopping then w.(attached := false, stopping := true, nextTick := w.nextTick + w.frequency)
    else OnStop(w).(queued := false, stopping := false)
  }

  /** tick_timers goes on while the timer, put back after its tick, is still due. */
  function TickPass<C>(w: World<C>, now: nat): World<C>
    decreases w.queued, !w.stopping
  {
    if w.queued && w.nextTick <= now then TickPass(TickOnce(w), now) else w
  }

  /**
   This pass takes the timer out of the queue. The loop of tick_timers ends only by looking at the
   head of the queue, so if the cluster has no other timer it then looks at that of an empty one.
   */
  predicate EmptiesQueue<C>(w: World<C>, now: nat) {
    w.queued && !TickPass(w, now).queued
  }

  /** delete tl: the listener detaches and its timer handle is marked; deleting null does nothing. */
  function Release<C>(w: World<C>): World<C> {
    if w.listener then w.(listener := false, attached := false, stopping := true, releases := w.releases + 1) else w
  }

  function Next<E, C>(filter: E -> Option<C>, w: World<C>, i: Input<E>): World<C> {
    match i
    case Event(e) => if w.attached && filter(e).Some? then w.(stored := w.stored + [filter(e).value]) else w
    case Tick(now) => TickPass(w, now)
    case Cancel => Release(w)
    case Destroy => Release(w).(alive := false)
    case Shutdown => if w.queued then OnStop(w).(queued := false) else w
  }

  function Run<E, C>(filter: E -> Option<C>, s: Setup, trace: seq<Input<E>>): World<C> {
    if trace == [] then Begin(s)
    else Next(filter, Run(filter, s, trace[..|trace| - 1]), trace[|trace| - 1])
  }

  // ---------------------------------------------------------------- what the inputs alone say

  ghost predicate Expiry<E>(s: Setup, i: Input<E>) {
    i.Tick? && s.start + s.duration <= i.now
  }

  /** The inputs that end the collecting. */
  ghost predicate Stops<E>(s: Setup, i: Input<E>) {
    Expiry(s, i) || i.Cancel? || i.Destroy? || i.Shutdown?
  }

  ghost predicate Stopped<E(!new)>(s: Setup, trace: seq<Input<E>>) {
    exists i :: 0 <= i < |trace| && Stops(s, trace[i])
  }

  /** What the filter selects from one input. */
  function Selection<E, C>(filter: E -> Option<C>, i: Input<E>): seq<C> {
    if i.Event? && filter(i.e).Some? then [filter(i.e).value] else []
  }

  /** The objects selected from the events before the first stop, in order of arrival. */
  ghost function Collected<E, C>(filter: E -> Option<C>, s: Setup, trace: seq<Input<E>>): seq<C> {
    if trace == [] || Stops(s, trace[0]) then []
    else Selection(filter, trace[0]) + Collected(filter, s, trace[1..])
  }

  /** Input `k` is an event that the filter selects, before the first stop. */
  ghost predicate Picked<E(!new), C>(filter: E -> Option<C>, s: Setup, trace: seq<Input<E>>, k: nat) {
    k < |trace| && trace[k].Event? && filter(trace[k].e).Some? && forall j :: 0 <= j < k ==> !Stops(s, trace[j])
  }

  lemma PickedShifts<E(!new), C>(filter: E -> Option<C>, s: Setup, trace: seq<Input<E>>, k: nat)
    requires 0 < k && trace != [] && !Stops(s, trace[0])
    ensures Picked(filter, s, trace, k) <==> Picked(filter, s, trace[1..], k - 1)
  {
    assert forall j :: 0 < j < |trace| ==> trace[j] == trace[1..][j - 1];
  }

  /** `ks` are the positions of the collected objects' events, in order. */
  ghost predicate PickedAt<E(!new), C>(filter: E -> Option<C>, s: Setup, trace: seq<Input<E>>, ks: seq<nat>) {
    && |Collected(filter, s, trace)| == |ks|
    && (forall i, j :: 0 <= i < j < |ks| ==> ks[i] < ks[j])
    && (forall j :: 0 <= j < |ks| ==>
          Picked(filter, s, trace, ks[j]) && filter(trace[ks[j]].e) == Some(Collected(filter, s, trace)[j]))
  }

  /** The positions one further on, with the first one in front if it counts. */
  ghost function Moved(first: bool, later: seq<nat>): seq<nat> {
    (if first then [0] else []) + seq(|later|, j requires 0 <= j < |later| => later[j] + 1)
  }

  lemma OneMorePicked<E(!new), C>(filter: E -> Option<C>, s: Setup, trace: seq<Input<E>>, later: seq<nat>, ks: seq<nat>)
    requires trace != [] && !Stops(s, trace[0]) && PickedAt(filter, s, trace[1..], later)
    requires ks == Moved(Picked(filter, s, trace, 0), later)
    ensures PickedAt(filter, s, trace, ks)
  {
    var n := |ks| - |later|;
    forall j | n <= j < |ks|
      ensures Picked(filter, s, trace, ks[j]) && filter(trace[ks[j]].e) == Some(Collected(filter, s, trace)[j])
    {
      assert ks[j] == later[j - n] + 1;
      PickedShifts(filter, s, trace, ks[j]);
    }
  }

  lemma AllPicked<E(!new), C>(
      filter: E -> Option<C>, s: Setup, trace: seq<Input<E>>, later: seq<nat>, ks: seq<nat>, k: nat)
    requires trace != [] && !Stops(s, trace[0]) && Picked(filter, s, trace, k)
    requires forall i: nat :: Picked(filter, s, trace[1..], i) ==> i in later
    requires ks == Moved(Picked(filter, s, trace, 0), later)
    ensures k in ks
  {
    if k != 0 {
      PickedShifts(filter, s, trace, k);
      var j :| 0 <= j < |later| && later[j] == k - 1;
      assert ks[|ks| - |later| + j] == k;
    }
  }

  /** What is collected, entry by entry: all objects selected from the events before the first stop, in order. */
  lemma {:induction false} CollectedSpelled<E(!new), C>(filter: E -> Option<C>, s: Setup, trace: seq<Input<E>>)
      returns (ks: seq<nat>)
    ensures PickedAt(filter, s, trace, ks)
    ensures forall k: nat :: Picked(filter, s, trace, k) ==> k in ks
    decreases |trace|
  {
    ks := [];
    if trace != [] && !Stops(s, trace[0]) {
      var later := CollectedSpelled(filter, s, trace[1..]);
      ks := Moved(Picked(filter, s, trace, 0), later);
      OneMorePicked(filter, s, trace, later, ks);
      forall k: nat | Picked(filter, s, trace, k) ensures k in ks { AllPicked(filter, s, trace, later, ks, k); }
    }
  }

  ghost predicate NoExpiry<E(!new)>(s: Setup, trace: seq<Input<E>>) {
    forall k :: 0 <= k < |trace| ==> !Expiry(s, trace[k])
  }

  /** Whether the collector was cancelled or destroyed before its timer expired. */
  ghost predicate CutShort<E>(s: Setup, trace: seq<Input<E>>) {
    trace != [] && !Expiry(s, trace[0]) && (trace[0].Cancel? || trace[0].Destroy? || CutShort(s, trace[1..]))
  }

  /** When the stop callback falls due: one duration after the start if cut short, two if left to expire. */
  ghost function Due<E>(s: Setup, trace: seq<Input<E>>): nat {
    s.start + s.duration + (if CutShort(s, trace) then 0 else s.duration)
  }

  /** Input `k` cancels or destroys the collector, and no tick before it found the duration over. */
  ghost predicate ReleasedInTime<E(!new)>(s: Setup, trace: seq<Input<E>>, k: nat) {
    && k < |trace| && (trace[k].Cancel? || trace[k].Destroy?)
    && forall j :: 0 <= j < k && trace[j].Tick? ==> trace[j].now < s.start + s.duration
  }

  lemma {:induction false} CutShortSpelled<E(!new)>(s: Setup, trace: seq<Input<E>>)
    ensures CutShort(s, trace) <==> exists k: nat :: ReleasedInTime(s, trace, k)
  {
    if trace != [] {
      var later := trace[1..];
      CutShortSpelled(s, later);
      assert forall j :: 0 < j < |trace| ==> trace[j] == later[j - 1];
      if !Expiry(s, trace[0]) {
        if k: nat :| ReleasedInTime(s, later, k) { assert ReleasedInTime(s, trace, k + 1); }
        if k: nat :| ReleasedInTime(s, trace, k) && k > 0 { assert ReleasedInTime(s, later, k - 1); }
        if trace[0].Cancel? || trace[0].Destroy? { assert ReleasedInTime(s, trace, 0); }
      }
    }
  }

  /** Expiry ends the collecting; the callback waits for a second duration unless the collector is released in time. */
  lemma DueSpelled<E(!new)>(s: Setup, trace: seq<Input<E>>)
    ensures (exists k: nat :: ReleasedInTime(s, trace, k)) ==> Due(s, trace) == s.start + s.duration
    ensures (forall k: nat :: !ReleasedInTime(s, trace, k)) ==> Due(s, trace) == s.start + 2 * s.duration
  {
    CutShortSpelled(s, trace);
  }

  ghost predicate Destroyed<E(!new)>(trace: seq<Input<E>>) {
    exists i :: 0 <= i < |trace| && trace[i].Destroy?
  }

  /** Input `j` is one at which the stop callback runs, if it has not run before. */
  ghost predicate Fires<E>(s: Setup, trace: seq<Input<E>>, j: nat) {
    j < |trace| && (trace[j].Shutdown? || (trace[j].Tick? && Due(s, trace[..j]) <= trace[j].now))
  }

  ghost predicate Fired<E(!new)>(s: Setup, trace: seq<Input<E>>) {
    exists j: nat :: Fires(s, trace, j)
  }

  // ---------------------------------------------------------------- one more input

  lemma {:induction false} CollectedOnePast<E(!new), C>(
      filter: E -> Option<C>, s: Setup, trace: seq<Input<E>>, i: Input<E>)
    ensures Collected(filter, s, trace + [i])
         == Collected(filter, s, trace) + (if Stopped(s, trace) then [] else Selection(filter, i))
  {
    if trace != [] {
      assert (trace + [i])[1..] == trace[1..] + [i];
      CollectedOnePast(filter, s, trace[1..], i);
      assert Stopped(s, trace) <==> Stops(s, trace[0]) || Stopped(s, trace[1..]) by {
        if k :| 0 <= k < |trace| && Stops(s, trace[k]) && k > 0 { assert Stops(s, trace[1..][k - 1]); }
        if k :| 0 <= k < |trace[1..]| && Stops(s, trace[1..][k]) { assert Stops(s, trace[k + 1]); }
      }
    } else {
      assert (trace + [i])[1..] == [];
    }
  }

  lemma {:induction false} CutShortOnePast<E(!new)>(s: Setup, trace: seq<Input<E>>, i: Input<E>)
    ensures CutShort(s, trace + [i]) <==> (CutShort(s, trace) || ((i.Cancel? || i.Destroy?) && NoExpiry(s, trace)))
  {
    if trace != [] {
      assert (trace + [i])[1..] == trace[1..] + [i];
      CutShortOnePast(s, trace[1..], i);
      assert NoExpiry(s, trace) <==> (!Expiry(s, trace[0]) && NoExpiry(s, trace[1..])) by {
        assert forall k :: 0 <= k < |trace[1..]| ==> trace[1..][k] == trace[k + 1];
        assert forall k :: 0 < k < |trace| ==> trace[k] == trace[1..][k - 1];
      }
    }
  }

  lemma OnePast<E(!new)>(s: Setup, trace: seq<Input<E>>, i: Input<E>)
    ensures Stopped(s, trace + [i]) <==> Stopped(s, trace) || Stops(s, i)
    ensures Destroyed(trace + [i]) <==> Destroyed(trace) || i.Destroy?
    ensures Fired(s, trace + [i]) <==> Fired(s, trace) || Fires(s, trace + [i], |trace|)
    ensures forall j: nat :: j < |trace| ==> (Fires(s, trace + [i], j) <==> Fires(s, trace, j))
  {
    var longer := trace + [i];
    assert longer[|trace|] == i && longer[..|trace|] == trace;
    forall j: nat | j < |trace| ensures Fires(s, longer, j) <==> Fires(s, trace, j) {
      assert longer[..j] == trace[..j];
    }
    if Stopped(s, trace) { var k :| 0 <= k < |trace| && Stops(s, trace[k]); assert longer[k] == trace[k]; }
    if Destroyed(trace) { var k :| 0 <= k < |trace| && trace[k].Destroy?; assert longer[k] == trace[k]; }
    if Fired(s, trace) { var k: nat :| Fires(s, trace, k); assert Fires(s, longer, k); }
  }

  // ---------------------------------------------------------------- the invariant of every run

  ghost predicate NotReleased<E(!new)>(trace: seq<Input<E>>) {
    forall k :: 0 <= k < |trace| ==> !trace[k].Cancel? && !trace[k].Destroy?
  }

  /** The stop callback fired while the collector was still alive. */
  ghost predicate FiredAlive<E(!new)>(s: Setup, trace: seq<Input<E>>) {
    exists j: nat :: Fires(s, trace, j) && !Destroyed(trace[..j])
  }

  /** While the timer is in the queue. */
  ghost predicate Waiting<E(!new), C(!new)>(filter: E -> Option<C>, s: Setup, trace: seq<Input<E>>, w: World<C>) {
    && !w.triggered && w.completed == [] && w.late == 0 && w.stored == Collected(filter, s, trace)
    && (if Stopped(s, trace) then
          !w.attached && w.stopping && w.nextTick == Due(s, trace) && (CutShort(s, trace) || !NoExpiry(s, trace))
        else
          w.attached && !w.stopping && w.nextTick == s.start + s.duration && !CutShort(s, trace))
  }

  ghost predicate Consistent<E(!new), C(!new)>(filter: E -> Option<C>, s: Setup, trace: seq<Input<E>>, w: World<C>) {
    && w.frequency == s.duration
    && (w.alive <==> !Destroyed(trace))
    && (w.listener <==> NotReleased(trace))
    && w.releases == (if w.listener then 0 else 1)
    && (w.queued <==> !Fired(s, trace))
    && (w.queued ==> Waiting(filter, s, trace, w))
    && (!w.queued ==> Stopped(s, trace) && |w.completed| + w.late == 1 && (w.triggered <==> w.completed != []))
    && (w.completed != [] ==> w.completed == [Collected(filter, s, trace)])
    && (w.completed != [] <==> FiredAlive(s, trace))
  }

  lemma TickPassCases<C>(w: World<C>, now: nat)
    ensures TickPass(w, now) ==
            if !w.queued || now < w.nextTick then w
            else if w.stopping || now < w.nextTick + w.frequency then TickOnce(w)
            else TickOnce(TickOnce(w))
  {
    if w.queued && w.nextTick <= now && !w.stopping {
      var w1 := TickOnce(w);
      assert w1.stopping;
      assert TickPass(w, now) == TickPass(w1, now);
      assert w1.nextTick <= now ==> TickPass(w1, now) == TickPass(TickOnce(w1), now);
    }
  }

  lemma FiredAliveOnePast<E(!new)>(s: Setup, trace: seq<Input<E>>, i: Input<E>)
    ensures FiredAlive(s, trace + [i]) <==>
            FiredAlive(s, trace) || (Fires(s, trace + [i], |trace|) && !Destroyed(trace))
    ensures NotReleased(trace + [i]) <==> NotReleased(trace) && !i.Cancel? && !i.Destroy?
    ensures NoExpiry(s, trace + [i]) <==> NoExpiry(s, trace) && !Expiry(s, i)
    ensures NotReleased(trace) ==> !Destroyed(trace)
    ensures FiredAlive(s, trace) ==> Fired(s, trace)
  {
    var longer := trace + [i];
    OnePast(s, trace, i);
    assert longer[..|trace|] == trace;
    assert forall j: nat :: j < |trace| ==> longer[..j] == trace[..j];
    assert forall j :: 0 <= j < |trace| ==> longer[j] == trace[j];
    assert longer[|trace|] == i;
    if FiredAlive(s, trace) {
      var j: nat :| Fires(s, trace, j) && !Destroyed(trace[..j]);
      assert Fires(s, longer, j) && !Destroyed(longer[..j]);
    }
  }

  /** Everything about a trace that one more input changes. */
  lemma TraceGrows<E(!new), C(!new)>(filter: E -> Option<C>, s: Setup, trace: seq<Input<E>>, i: Input<E>)
    ensures var longer := trace + [i];
            && (Stopped(s, longer) <==> Stopped(s, trace) || Stops(s, i))
            && (Destroyed(longer) <==> Destroyed(trace) || i.Destroy?)
            && (Fired(s, longer) <==> Fired(s, trace) || i.Shutdown? || (i.Tick? && Due(s, trace) <= i.now))
            && (FiredAlive(s, longer) <==>
                (FiredAlive(s, trace) || (!Destroyed(trace) && (i.Shutdown? || (i.Tick? && Due(s, trace) <= i.now)))))
            && (CutShort(s, longer) <==> CutShort(s, trace) || ((i.Cancel? || i.Destroy?) && NoExpiry(s, trace)))
            && (NotReleased(longer) <==> NotReleased(trace) && !i.Cancel? && !i.Destroy?)
            && (NoExpiry(s, longer) <==> NoExpiry(s, trace) && !Expiry(s, i))
            && Collected(filter, s, longer) ==
                Collected(filter, s, trace) + (if Stopped(s, trace) then [] else Selection(filter, i))
            && (NotReleased(trace) ==> !Destroyed(trace))
            && (FiredAlive(s, trace) ==> Fired(s, trace))
  {
    OnePast(s, trace, i);
    CollectedOnePast(filter, s, trace, i);
    CutShortOnePast(s, trace, i);
    FiredAliveOnePast(s, trace, i);
    assert (trace + [i])[|trace|] == i && (trace + [i])[..|trace|] == trace;
  }

  lemma InputKeepsConsistent<E(!new), C(!new)>(
      filter: E -> Option<C>, s: Setup, trace: seq<Input<E>>, w: World<C>, i: Input<E>)
    requires Consistent(filter, s, trace, w)
    ensures Consistent(filter, s, trace + [i], Next(filter, w, i))
  {
    TraceGrows(filter, s, trace, i);
    var seen := Collected(filter, s, trace);
    assert seen + [] == seen;
    assert Stopped(s, trace) || !i.Event? ==> Collected(filter, s, trace + [i]) == seen;
    if i.Tick? {
      TickPassCases(w, i.now);
    }
  }

  lemma {:induction false} RunConsistent<E(!new), C(!new)>(filter: E -> Option<C>, s: Setup, trace: seq<Input<E>>)
    ensures Consistent(filter, s, trace, Run(filter, s, trace))
    decreases |trace|
  {
    if trace != [] {
      var before, i := trace[..|trace| - 1], trace[|trace| - 1];
      assert trace == before + [i];
      RunConsistent(filter, s, before);
      InputKeepsConsistent(filter, s, before, Run(filter, s, before), i);
    }
  }

  // ---------------------------------------------------------------- what every run delivers

  /**
   However events, ticks, cancels, shutdown and destruction interleave, completed() is called at
   most once, and then with exactly the objects the filter selected from the events before the
   collecting stopped, in order.
   */
  lemma Delivery<E(!new), C(!new)>(filter: E -> Option<C>, s: Setup, trace: seq<Input<E>>)
    ensures var w := Run(filter, s, trace);
            w.completed == [] || w.completed == [Collected(filter, s, trace)]
  {
    RunConsistent(filter, s, trace);
  }

  /**
   Exactly when completed() has been called: the timer must be found due, or the cluster shut
   down, while the collector is alive. Neither the timeout, nor cancelling, nor destroying calls
   it by itself, although the documentation says each of them does.
   */
  lemma CompletedExactlyWhen<E(!new), C(!new)>(filter: E -> Option<C>, s: Setup, trace: seq<Input<E>>)
    ensures Run(filter, s, trace).completed != [] <==>
            exists j: nat :: j < |trace| && !Destroyed(trace[..j])
                             && (trace[j].Shutdown? || (trace[j].Tick? && Due(s, trace[..j]) <= trace[j].now))
  {
    RunConsistent(filter, s, trace);
    if FiredAlive(s, trace) {
      var j: nat :| Fires(s, trace, j) && !Destroyed(trace[..j]);
      assert j < |trace| && !Destroyed(trace[..j])
             && (trace[j].Shutdown? || (trace[j].Tick? && Due(s, trace[..j]) <= trace[j].now));
    }
    if j: nat :| j < |trace| && !Destroyed(trace[..j]) &&
                 (trace[j].Shutdown? || (trace[j].Tick? && Due(s, trace[..j]) <= trace[j].now)) {
      assert Fires(s, trace, j);
    }
  }

  /** The stop callback runs once in all, on the collector or, if the collector is gone by then, too late. */
  lemma StopCallbackRunsOnce<E(!new), C(!new)>(filter: E -> Option<C>, s: Setup, trace: seq<Input<E>>)
    ensures var w := Run(filter, s, trace);
            |w.completed| + w.late == if Fired(s, trace) then 1 else 0
    ensures Run(filter, s, trace).late > 0 <==> Fired(s, trace) && !FiredAlive(s, trace)
  {
    RunConsistent(filter, s, trace);
  }

  /**
   A pass leaves the queue without this timer exactly when the stop callback falls due in it and has
   not run before: every timer pass that delivers the list, or comes too late to, does it.
   */
  lemma QueueEmptiedExactlyWhen<E(!new), C(!new)>(filter: E -> Option<C>, s: Setup, trace: seq<Input<E>>, now: nat)
    ensures EmptiesQueue(Run(filter, s, trace), now) <==> !Fired(s, trace) && Due(s, trace) <= now
  {
    RunConsistent(filter, s, trace);
    TickPassCases(Run(filter, s, trace), now);
  }

  /** The timed listener is released once however often the collector is cancelled, and always by its destruction. */
  lemma ListenerReleasedOnce<E(!new), C(!new)>(filter: E -> Option<C>, s: Setup, trace: seq<Input<E>>)
    ensures Run(filter, s, trace).releases <= 1
    ensures Destroyed(trace) ==> Run(filter, s, trace).releases == 1 && !Run(filter, s, trace).listener
  {
    RunConsistent(filter, s, trace);
  }

  /** The expiry callback, which uses the timed listener, never runs after the listener is gone. */
  lemma ExpiryFindsItsListener<E(!new), C(!new)>(filter: E -> Option<C>, s: Setup, trace: seq<Input<E>>)
    ensures var w := Run(filter, s, trace); w.queued && !w.stopping ==> w.listener
  {
    RunConsistent(filter, s, trace);
    var w := Run(filter, s, trace);
    if !NotReleased(trace) {
      var k :| 0 <= k < |trace| && (trace[k].Cancel? || trace[k].Destroy?);
      assert Stops(s, trace[k]);
    }
  }

  /** A concrete run: an event is collected, the collector is cancelled and destroyed, and nothing is ever delivered. */
  lemma DestroyedBeforeDelivery()
    ensures var trace := [Event(7), Cancel, Destroy, Tick(100)];
            var w := Run((e: int) => Some(e), Setup(0, 10), trace);
            w.completed == [] && w.late == 1 && w.stored == [7]
  {
    var f := (e: int) => Some(e);
    var s := Setup(0, 10);
    var trace: seq<Input<int>> := [Event(7), Cancel, Destroy, Tick(100)];
    assert trace[..3] == [Event(7), Cancel, Destroy];
    assert trace[..3][..2] == [Event(7), Cancel];
    assert trace[..3][..2][..1] == [Event(7)];
    assert trace[..3][..2][..1][..0] == [];
    var w1 := Next(f, Begin(s), Event(7));
    assert Run(f, s, [Event(7)]) == w1;
    var w3 := Next(f, Next(f, w1, Cancel), Destroy);
    assert Run(f, s, trace[..3]) == w3;
    TickPassCases(w3, 100);
  }
}
