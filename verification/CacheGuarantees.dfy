/**
 What the caches promise over every execution of any number of threads.
 */
module CacheGuarantees {
  import opened Prelude
  import opened L = CacheLedger
  import opened T = CacheThreads
  import opened R = CacheRefinement
  import opened Z = CacheLinearizability

  ghost predicate IsExecution(cs: set<CacheId>, ss: seq<State>, mvs: seq<Move>) {
    && |ss| == |mvs| + 1
    && ss[0] == Init(cs)
    && (forall i {:trigger mvs[i]} :: 0 <= i < |mvs| ==> Can(ss[i], mvs[i]) && ss[i + 1] == Do(ss[i], mvs[i]))
  }

  ghost function AbsRun(ss: seq<State>): seq<Ledger> {
    seq(|ss|, i requires 0 <= i < |ss| => Abs(ss[i]))
  }

  ghost function ActionRun(ss: seq<State>, mvs: seq<Move>): seq<Action>
    requires |mvs| <= |ss|
  {
    seq(|mvs|, i requires 0 <= i < |mvs| => ActionOf(ss[i], mvs[i]))
  }

  lemma ExecutionInv(cs: set<CacheId>, ss: seq<State>, mvs: seq<Move>)
    requires IsExecution(cs, ss, mvs)
    ensures forall i :: 0 <= i < |ss| ==> Inv(ss[i])
  {
    InitInv(cs);
    for n := 0 to |mvs|
      invariant forall i :: 0 <= i <= n ==> Inv(ss[i])
    {
      assert ss[n + 1] == Do(ss[n], mvs[n]);
      MoveRefines(ss[n], mvs[n]);
    }
  }

  /** A step touches its own thread and cache only, the queue only under the deletion mutex. */
  lemma StepFrame(s: State, t: ThreadId, pick: Pick)
    requires Inv(s) && CanStep(s, t, pick)
    ensures Frame(s, DoStep(s, t, pick), t, Target(s.threads[t].op))
  {
    InvReady(s, t, pick);
    StepActs(s, t, pick, Target(s.threads[t].op));
  }

  lemma ExecutionStep(cs: set<CacheId>, ss: seq<State>, mvs: seq<Move>, i: nat)
    requires IsExecution(cs, ss, mvs) && i < |mvs|
    ensures Enabled(Abs(ss[i]), ActionOf(ss[i], mvs[i])) && Abs(ss[i + 1]) == Apply(Abs(ss[i]), ActionOf(ss[i], mvs[i]))
  {
    ExecutionInv(cs, ss, mvs);
    assert ss[i + 1] == Do(ss[i], mvs[i]);
    MoveRefines(ss[i], mvs[i]);
  }

  lemma InitIsStart(cs: set<CacheId>)
    ensures Abs(Init(cs)) == Start(cs)
  {}

  ghost predicate RunStep(ls: seq<Ledger>, acts: seq<Action>, i: nat) {
    i < |acts| && i + 1 < |ls| && Enabled(ls[i], acts[i]) && ls[i + 1] == Apply(ls[i], acts[i])
  }

  lemma ExecutionRunStep(cs: set<CacheId>, ss: seq<State>, mvs: seq<Move>, i: nat)
    requires IsExecution(cs, ss, mvs) && i < |mvs|
    ensures RunStep(AbsRun(ss), ActionRun(ss, mvs), i)
  {
    ExecutionStep(cs, ss, mvs, i);
  }

  lemma StepsMakeRun(cs: set<CacheId>, ls: seq<Ledger>, acts: seq<Action>)
    requires |ls| == |acts| + 1 && ls[0] == Start(cs) && forall i :: 0 <= i < |acts| ==> RunStep(ls, acts, i)
    ensures IsRun(ls, acts)
  {
    forall i {:trigger acts[i]} | 0 <= i < |acts|
      ensures Enabled(ls[i], acts[i]) && ls[i + 1] == Apply(ls[i], acts[i])
    {
      assert RunStep(ls, acts, i);
    }
  }

  /** Every execution of the threads is, abstractly, a run of atomic actions. */
  lemma ExecutionRefinesRun(cs: set<CacheId>, ss: seq<State>, mvs: seq<Move>)
    requires IsExecution(cs, ss, mvs)
    ensures IsRun(AbsRun(ss), ActionRun(ss, mvs))
  {
    assert AbsRun(ss)[0] == Start(cs) by { InitIsStart(cs); }
    forall i | 0 <= i < |mvs| ensures RunStep(AbsRun(ss), ActionRun(ss, mvs), i) { ExecutionRunStep(cs, ss, mvs, i); }
    StepsMakeRun(cs, AbsRun(ss), ActionRun(ss, mvs));
  }

  /** The callers' contract, checked at the instant each operation takes effect. */
  ghost predicate CallersObey(ss: seq<State>, mvs: seq<Move>)
    requires |ss| == |mvs| + 1
  {
    forall i :: 0 <= i < |mvs| ==> Contract(Abs(ss[i]), ActionOf(ss[i], mvs[i]))
  }

  lemma ObeyIsObey(ss: seq<State>, mvs: seq<Move>)
    requires |ss| == |mvs| + 1
    ensures CallersObey(ss, mvs) <==> Obeys(AbsRun(ss), ActionRun(ss, mvs))
  {
    var ls, acts := AbsRun(ss), ActionRun(ss, mvs);
    forall i | 0 <= i < |mvs| ensures Contract(Abs(ss[i]), ActionOf(ss[i], mvs[i])) <==> Contract(ls[i], acts[i]) {}
    if Obeys(ls, acts) {
      forall i | 0 <= i < |mvs| ensures Contract(Abs(ss[i]), ActionOf(ss[i], mvs[i])) {
        assert Contract(ls[i], acts[i]);
      }
    }
  }

  /**
   Ownership under concurrency: no interleaving loses, duplicates or double-frees an object iff
   every call obeys the contract.
   */
  lemma ThreadedOwnership(cs: set<CacheId>, ss: seq<State>, mvs: seq<Move>)
    requires IsExecution(cs, ss, mvs)
    ensures (forall i :: 0 <= i < |ss| ==> Owned(Abs(ss[i]))) <==> CallersObey(ss, mvs)
  {
    ExecutionRefinesRun(cs, ss, mvs);
    ObeyIsObey(ss, mvs);
    OwnershipConservation(AbsRun(ss), ActionRun(ss, mvs));
    var ls := AbsRun(ss);
    if forall i :: 0 <= i < |ls| ==> Owned(ls[i]) {
      forall i | 0 <= i < |ss| ensures Owned(Abs(ss[i])) { assert Owned(ls[i]); }
    }
  }

  /** Thread `t` is executing the map lookup of find, and the lookup yields `o`. */
  ghost predicate FindsNow(s: State, mv: Move, o: Object) {
    && mv.Step? && CanStep(s, mv.t, mv.pick)
    && var pc := s.threads[mv.t];
       pc.op.OpFind? && pc.at.Search? && Lookup(MapOf(s, pc.op), pc.op.id) == Some(o)
  }

  /** Thread `t` is deleting `o` during a collection that read the clock as `now`. */
  ghost predicate FreesNow(s: State, mv: Move, o: Object, now: Time) {
    mv.Step? && CanStep(s, mv.t, mv.pick) && s.threads[mv.t].at == Scan(now) && mv.pick == Victim(o)
  }

  lemma FindSeesLive(s: State, mv: Move, o: Object)
    requires Inv(s) && Keyed(Abs(s)) && FindsNow(s, mv, o)
    ensures Live(Abs(s), o)
  {
    SearchSeesView(s, mv.t);
    assert LiveIn(Abs(s), s.threads[mv.t].op.c, o);
  }

  lemma FreeIsAction(s: State, mv: Move, o: Object, now: Time)
    requires Inv(s) && FreesNow(s, mv, o, now)
    ensures ActionOf(s, mv) == Free(o, now)
  {}

  /**
   Grace under concurrency: what find looked up at one instant is not freed by a collection within
   60 seconds of it.
   */
  lemma ThreadedGrace(cs: set<CacheId>, ss: seq<State>, mvs: seq<Move>, i: nat, j: nat, o: Object, now: Time)
    requires IsExecution(cs, ss, mvs) && CallersObey(ss, mvs)
    requires i <= j < |mvs| && FindsNow(ss[i], mvs[i], o) && FreesNow(ss[j], mvs[j], o, now)
    ensures ss[i].clock + 60 < now <= ss[j].clock
  {
    ExecutionInv(cs, ss, mvs);
    ExecutionRefinesRun(cs, ss, mvs);
    ObeyIsObey(ss, mvs);
    ThreadedOwnership(cs, ss, mvs);
    assert Owned(Abs(ss[i]));
    FindSeesLive(ss[i], mvs[i], o);
    FreeIsAction(ss[j], mvs[j], o, now);
    GracePeriod(AbsRun(ss), ActionRun(ss, mvs), i, j, o);
  }

  lemma InitLog(cs: set<CacheId>)
    ensures LogInv(cs, Init(cs))
  {}

  lemma {:induction false} ExecutionLog(cs: set<CacheId>, ss: seq<State>, mvs: seq<Move>, n: nat)
    requires IsExecution(cs, ss, mvs) && n <= |mvs|
    ensures LogInv(cs, ss[n])
  {
    if n == 0 {
      InitLog(cs);
    } else {
      ExecutionLog(cs, ss, mvs, n - 1);
      assert Inv(ss[n - 1]) by { ExecutionInv(cs, ss, mvs); }
      assert Can(ss[n - 1], mvs[n - 1]) && ss[n] == Do(ss[n - 1], mvs[n - 1]);
      MoveKeepsLog(cs, ss[n - 1], mvs[n - 1]);
    }
  }

  /** Every history the threads can produce, at every moment, is linearizable, to the maps the caches then stand for. */
  lemma Linearizable(cs: set<CacheId>, ss: seq<State>, mvs: seq<Move>, n: nat)
    requires IsExecution(cs, ss, mvs) && n < |ss|
    ensures exists log :: IsLinearization(cs, ss[n].hist, log) && Replay(cs, log) == Abs(ss[n]).caches
  {
    ExecutionLog(cs, ss, mvs, n);
    assert IsLinearization(cs, ss[n].hist, ss[n].log) && Replay(cs, ss[n].log) == Abs(ss[n]).caches;
  }

  // ---------------------------------------------------------------- mutual exclusion

  predicate NeedsMap(pc: Pc) {
    pc.at.Search? || pc.at.Insert? || pc.at.Replace? || pc.at.Erase? || pc.at.Allocate? || pc.at.Copy? || pc.at.Drop?
  }

  /**
   No thread is ever about to follow a deleted map pointer: in particular not between rehash's
   delete and its swap.
   */
  lemma NoDanglingMap(s: State, t: ThreadId)
    requires Inv(s) && t in s.threads && NeedsMap(s.threads[t])
    ensures HasMap(s, s.threads[t].op)
  {}

  /** A writer is alone with its cache. */
  lemma WriterIsAlone(s: State, t: ThreadId, u: ThreadId)
    requires Inv(s) && t in s.threads && u in s.threads && t != u
    requires HoldsWriter(s.threads[t]) && OnCache(s.threads[u].op, s.threads[t].op.c)
    ensures !HoldsWriter(s.threads[u]) && !HoldsReader(s.threads[u])
  {}

  /** Operations on different caches share no cache mutex, and still never work on the deletion queue together. */
  lemma QueueIsExclusive(s: State, t: ThreadId, u: ThreadId)
    requires Inv(s) && t in s.threads && u in s.threads
    requires HoldsDeletion(s.threads[t]) && HoldsDeletion(s.threads[u])
    ensures t == u
  {}

  /** Updates of the map and the queue by store and remove take nothing out of the queue. */
  lemma UpdateKeepsQueued(s: State, t: ThreadId, pick: Pick, o: Object)
    requires CanStep(s, t, pick) && o in s.queue
    requires var l := s.threads[t].at; l.Insert? || l.Enqueue? || l.Replace? || l.Erase? || l.Bury?
    ensures o in DoStep(s, t, pick).queue
  {}

  lemma SearchKeepsQueued(s: State, t: ThreadId, pick: Pick, o: Object)
    requires CanStep(s, t, pick) && o in s.queue && (s.threads[t].at.Search? || s.threads[t].at.UnlockDeletion?)
    ensures o in DoStep(s, t, pick).queue
  {}

  lemma CollectUnqueues(s: State, t: ThreadId, pick: Pick, o: Object)
    requires CanStep(s, t, pick) && o in s.queue && (s.threads[t].at.Scan? || s.threads[t].at.Forget?)
    ensures s.threads[t].op.OpCollect?
    ensures o !in DoStep(s, t, pick).queue <==> s.threads[t].at.Forget? && s.threads[t].at.o == o
  {}

  lemma HolderUnqueues(s: State, t: ThreadId, pick: Pick, o: Object)
    requires CanStep(s, t, pick) && HoldsDeletion(s.threads[t]) && o in s.queue && o !in DoStep(s, t, pick).queue
    ensures s.threads[t].op.OpCollect? && s.threads[t].at.Forget? && s.threads[t].at.o == o
  {
    match s.threads[t].at
    case Scan(_) => CollectUnqueues(s, t, pick, o);
    case Forget(_, _) => CollectUnqueues(s, t, pick, o);
    case Search => SearchKeepsQueued(s, t, pick, o);
    case UnlockDeletion(_) => SearchKeepsQueued(s, t, pick, o);
    case _ => UpdateKeepsQueued(s, t, pick, o);
  }

  /** Only the holder of the deletion mutex touches the queue, and it removes entries only as a collector. */
  lemma StepUnqueues(s: State, t: ThreadId, pick: Pick, o: Object)
    requires Inv(s) && CanStep(s, t, pick) && o in s.queue && o !in DoStep(s, t, pick).queue
    ensures s.threads[t].op.OpCollect? && s.threads[t].at.Forget? && s.threads[t].at.o == o
  {
    assert HoldsDeletion(s.threads[t]) by {
      assert ThreadOk(s, t);
      StepFrame(s, t, pick);
    }
    HolderUnqueues(s, t, pick, o);
  }

  lemma OnlyForgetUnqueues(s: State, mv: Move, o: Object)
    requires Inv(s) && Can(s, mv) && o in s.queue && o !in Do(s, mv).queue
    ensures mv.Step? && s.threads[mv.t].op.OpCollect? && s.threads[mv.t].at.Forget? && s.threads[mv.t].at.o == o
    ensures CollectOk(s, s.threads[mv.t])
  {
    StepUnqueues(s, mv.t, mv.pick, o);
    assert ThreadOk(s, mv.t);
  }

  // ---------------------------------------------------------------- deadlock

  predicate Acquires(pc: Pc) {
    pc.at.Enter? || pc.at.AwaitDeletion? || pc.at.AwaitDeletionToRemove? || pc.at.AwaitDeletionToCollect?
  }

  /** A thread that is not about to take a mutex is never stuck. */
  lemma OnlyLocksBlock(s: State, t: ThreadId)
    requires Inv(s) && t in s.threads && !Acquires(s.threads[t])
    ensures exists pick :: CanStep(s, t, pick)
  {
    assert ThreadOk(s, t);
    var pc := s.threads[t];
    if NeedsMap(pc) { NoDanglingMap(s, t); }
    if pc.at.Copy? && pc.at.todo != {} {
      var k :| k in pc.at.todo;
      assert CanStep(s, t, Slot(k));
    } else if pc.at.Scan? && exists o :: o in s.queue && Expired(s.queue, o, pc.at.now) {
      var o :| o in s.queue && Expired(s.queue, o, pc.at.now);
      assert CanStep(s, t, Victim(o));
    } else {
      assert CanStep(s, t, Any);
    }
  }

  lemma EnterBlockedByHolder(s: State, t: ThreadId) returns (u: ThreadId)
    requires Inv(s) && t in s.threads && s.threads[t].at.Enter? && !CanStep(s, t, Any)
    ensures u in s.threads && (HoldsWriter(s.threads[u]) || HoldsReader(s.threads[u]))
  {
    assert ThreadOk(s, t);
    var c := s.threads[t].op.c;
    assert CellOk(s, c);
    if s.cells[c].writer.Some? {
      u := s.cells[c].writer.value;
    } else {
      u :| u in s.cells[c].readers;
    }
  }

  lemma SomeThreadMoves(s: State)
    requires Inv(s) && s.threads != map[]
    ensures exists t, pick :: CanStep(s, t, pick)
  {
    var t :| t in s.threads;
    if s.holder.Some? {
      var h := s.holder.value;
      assert ThreadOk(s, h);
      OnlyLocksBlock(s, h);
    } else if !Acquires(s.threads[t]) {
      OnlyLocksBlock(s, t);
    } else if !CanStep(s, t, Any) {
      assert ThreadOk(s, t);
      var u := EnterBlockedByHolder(s, t);
      assert ThreadOk(s, u);
      if Acquires(s.threads[u]) {
        assert CanStep(s, u, Any);
      } else {
        OnlyLocksBlock(s, u);
      }
    }
  }

  // ---------------------------------------------------------------- every reachable state

  ghost predicate Reachable(s: State) {
    exists cs, ss, mvs :: IsExecution(cs, ss, mvs) && ss[|mvs|] == s
  }

  lemma ReachableInv(s: State)
    requires Reachable(s)
    ensures Inv(s)
  {
    var cs, ss, mvs :| IsExecution(cs, ss, mvs) && ss[|mvs|] == s;
    ExecutionInv(cs, ss, mvs);
  }

  /**
   Deadlock freedom: in every reachable state with an unfinished operation, some thread can take
   its next step. Threads take the cache mutex before the deletion mutex and hold one of each at most.
   */
  lemma DeadlockFree(s: State)
    requires Reachable(s) && s.threads != map[]
    ensures exists t, pick :: CanStep(s, t, pick)
  {
    ReachableInv(s);
    SomeThreadMoves(s);
  }

  /**
   No reachable state has a thread about to follow a deleted map, a writer with company, or two
   threads on the queue.
   */
  lemma AlwaysSafe(s: State, t: ThreadId, u: ThreadId)
    requires Reachable(s) && t in s.threads && u in s.threads
    ensures NeedsMap(s.threads[t]) ==> HasMap(s, s.threads[t].op)
    ensures t != u && HoldsWriter(s.threads[t]) && OnCache(s.threads[u].op, s.threads[t].op.c) ==>
              !HoldsWriter(s.threads[u]) && !HoldsReader(s.threads[u])
    ensures HoldsDeletion(s.threads[t]) && HoldsDeletion(s.threads[u]) ==> t == u
  {
    ReachableInv(s);
    if NeedsMap(s.threads[t]) { NoDanglingMap(s, t); }
    if t != u && HoldsWriter(s.threads[t]) && OnCache(s.threads[u].op, s.threads[t].op.c) { WriterIsAlone(s, t, u); }
    if HoldsDeletion(s.threads[t]) && HoldsDeletion(s.threads[u]) { QueueIsExclusive(s, t, u); }
  }

  /** An entry leaves the deletion queue only when a collection erases an object it has just deleted. */
  lemma QueueEntryLeaves(s: State, mv: Move, o: Object)
    requires Reachable(s) && Can(s, mv) && o in s.queue && o !in Do(s, mv).queue
    ensures mv.Step? && s.threads[mv.t].op.OpCollect? && s.threads[mv.t].at.Forget? && s.threads[mv.t].at.o == o
    ensures Expired(s.queue, o, s.threads[mv.t].at.now) && s.threads[mv.t].at.now <= s.clock
  {
    ReachableInv(s);
    OnlyForgetUnqueues(s, mv, o);
  }
}
