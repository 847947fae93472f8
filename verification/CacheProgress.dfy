/**
 Beyond deadlock freedom: from every reachable state the operations in progress can all be
 finished, by letting one suitable thread after the other take its remaining steps.
 */
module CacheProgress {
  import opened Prelude
  import opened L = CacheLedger
  import opened T = CacheThreads
  import opened R = CacheRefinement
  import opened Z = CacheLinearizability
  import opened G = CacheGuarantees

  /** A bound on the steps an operation still has to take if no other thread moves. */
  ghost function Rank(s: State, pc: Pc): nat {
    match pc.at
    case Return(_) => 0
    case UnlockCache(_) => 1
    case UnlockDeletion(_) => 2
    case Insert => 2
    case Replace(_) => 3
    case Enqueue(_) => 4
    case AwaitDeletion(_) => 5
    case Bury(_) => 3
    case Erase(_) => 4
    case AwaitDeletionToRemove => 7
    case Search => if pc.op.OpRemove? then 5 else 6
    case Swap(_) => 2
    case Drop(_) => 3
    case Copy(_, todo) => 4 + |todo|
    case Allocate => 5 + MapSize(s, pc.op)
    case Forget(_, _) => 2 + 2 * |s.queue|
    case Scan(_) => 3 + 2 * |s.queue|
    case AwaitDeletionToCollect(_) => 4 + 2 * |s.queue|
    case Enter => 8 + 2 * |s.queue| + MapSize(s, pc.op)
  }

  ghost function MapSize(s: State, op: Op): nat {
    if HasMap(s, op) then |MapOf(s, op)| else 0
  }

  /** No other thread holds a mutex that `t` may still need. */
  ghost predicate Clear(s: State, t: ThreadId)
    requires t in s.threads
  {
    && (s.holder.None? || s.holder == Some(t))
    && (s.threads[t].at.Enter? ==> CanEnter(s, s.threads[t].op))
  }

  ghost predicate Nearer(s: State, t: ThreadId, pick: Pick)
    requires CanStep(s, t, pick)
  {
    var s' := DoStep(s, t, pick);
    t in s'.threads ==>
      && Rank(s', s'.threads[t]) < Rank(s, s.threads[t])
      && (s'.holder == s.holder || s'.holder.None? || s'.holder == Some(t))
      && !s'.threads[t].at.Enter?
  }

  lemma EnterNearer(s: State, t: ThreadId, pick: Pick)
    requires CanStep(s, t, pick) && s.threads[t].at.Enter?
    ensures Nearer(s, t, pick)
  {}

  lemma SearchNearer(s: State, t: ThreadId, pick: Pick)
    requires CanStep(s, t, pick) && s.threads[t].at.Search?
    ensures Nearer(s, t, pick)
  {}

  lemma MapWriteNearer(s: State, t: ThreadId, pick: Pick)
    requires CanStep(s, t, pick) && (s.threads[t].at.Insert? || s.threads[t].at.Replace?)
    ensures Nearer(s, t, pick)
  {}

  lemma EraseNearer(s: State, t: ThreadId, pick: Pick)
    requires CanStep(s, t, pick) && s.threads[t].at.Erase?
    ensures Nearer(s, t, pick)
  {}

  lemma EnqueueNearer(s: State, t: ThreadId, pick: Pick)
    requires CanStep(s, t, pick) && s.threads[t].at.Enqueue?
    ensures Nearer(s, t, pick)
  {}

  lemma BuryNearer(s: State, t: ThreadId, pick: Pick)
    requires CanStep(s, t, pick) && s.threads[t].at.Bury?
    ensures Nearer(s, t, pick)
  {}

  lemma RehashNearer(s: State, t: ThreadId, pick: Pick)
    requires CanStep(s, t, pick) && (s.threads[t].at.Allocate? || s.threads[t].at.Drop? || s.threads[t].at.Swap?)
    ensures Nearer(s, t, pick)
  {}

  lemma CopyNearer(s: State, t: ThreadId, pick: Pick)
    requires CanStep(s, t, pick) && s.threads[t].at.Copy?
    ensures Nearer(s, t, pick)
  {}

  lemma ScanNearer(s: State, t: ThreadId, pick: Pick)
    requires CanStep(s, t, pick) && s.threads[t].at.Scan?
    ensures Nearer(s, t, pick)
  {}

  lemma ForgetNearer(s: State, t: ThreadId, pick: Pick)
    requires CanStep(s, t, pick) && s.threads[t].at.Forget? && CollectOk(s, s.threads[t])
    ensures Nearer(s, t, pick)
  {}

  lemma LocksNearer(s: State, t: ThreadId, pick: Pick)
    requires CanStep(s, t, pick)
             && (s.threads[t].at.AwaitDeletion? || s.threads[t].at.AwaitDeletionToRemove?
             || s.threads[t].at.AwaitDeletionToCollect?)
    ensures Nearer(s, t, pick)
  {}

  lemma UnlocksNearer(s: State, t: ThreadId, pick: Pick)
    requires CanStep(s, t, pick)
             && (s.threads[t].at.UnlockDeletion? || s.threads[t].at.UnlockCache? || s.threads[t].at.Return?)
    ensures Nearer(s, t, pick)
  {}

  lemma StepNearer(s: State, t: ThreadId, pick: Pick)
    requires CanStep(s, t, pick) && CollectOk(s, s.threads[t])
    ensures Nearer(s, t, pick)
  {
    match s.threads[t].at
    case Enter => EnterNearer(s, t, pick);
    case Search => SearchNearer(s, t, pick);
    case Insert => MapWriteNearer(s, t, pick);
    case Enqueue(_) => EnqueueNearer(s, t, pick);
    case Replace(_) => MapWriteNearer(s, t, pick);
    case Erase(_) => EraseNearer(s, t, pick);
    case Bury(_) => BuryNearer(s, t, pick);
    case Allocate => RehashNearer(s, t, pick);
    case Drop(_) => RehashNearer(s, t, pick);
    case Swap(_) => RehashNearer(s, t, pick);
    case Copy(_, _) => CopyNearer(s, t, pick);
    case Scan(_) => ScanNearer(s, t, pick);
    case Forget(_, _) => ForgetNearer(s, t, pick);
    case UnlockDeletion(_) => UnlocksNearer(s, t, pick);
    case UnlockCache(_) => UnlocksNearer(s, t, pick);
    case Return(_) => UnlocksNearer(s, t, pick);
    case _ => LocksNearer(s, t, pick);
  }

  // ---------------------------------------------------------------- schedules

  /** The moves lead from one state to the other. */
  ghost predicate Leads(s: State, mvs: seq<Move>, s': State)
    decreases |mvs|
  {
    if mvs == [] then s' == s
    else Can(s, mvs[0]) && Leads(Do(s, mvs[0]), mvs[1..], s')
  }

  ghost predicate OnlySteps(mvs: seq<Move>) {
    forall i :: 0 <= i < |mvs| ==> mvs[i].Step?
  }

  lemma {:induction false} LeadsJoin(s: State, a: seq<Move>, m: State, b: seq<Move>, s': State)
    requires Leads(s, a, m) && Leads(m, b, s')
    ensures Leads(s, a + b, s')
    decreases |a|
  {
    if a == [] {
      assert a + b == b;
    } else {
      LeadsJoin(Do(s, a[0]), a[1..], m, b, s');
      assert (a + b)[0] == a[0] && (a + b)[1..] == a[1..] + b;
    }
  }

  lemma ClearCanStep(s: State, t: ThreadId)
    requires Inv(s) && t in s.threads && Clear(s, t)
    ensures exists pick :: CanStep(s, t, pick)
  {
    assert ThreadOk(s, t);
    if Acquires(s.threads[t]) {
      assert CanStep(s, t, Any);
    } else {
      OnlyLocksBlock(s, t);
    }
  }

  lemma LeadsFirst(s: State, mv: Move, s1: State, rest: seq<Move>, s': State)
    requires Can(s, mv) && s1 == Do(s, mv) && Leads(s1, rest, s')
    ensures Leads(s, [mv] + rest, s')
  {
    assert ([mv] + rest)[1..] == rest;
  }

  lemma StepKeepsClear(s: State, t: ThreadId, pick: Pick)
    requires CanStep(s, t, pick) && Clear(s, t) && CollectOk(s, s.threads[t])
    ensures var s' := DoStep(s, t, pick);
            && s'.threads - {t} == s.threads - {t}
            && (t in s'.threads ==> Clear(s', t) && Rank(s', s'.threads[t]) < Rank(s, s.threads[t]))
  {
    StepNearer(s, t, pick);
    assert LogsOnce(s, DoStep(s, t, pick), t) by { StepLogs(s, t, pick); }
  }

  /** The next step of a thread in the clear: it stays in the clear and comes nearer to its end, or returns. */
  lemma SoloStep(s: State, t: ThreadId) returns (mvs: seq<Move>, s': State)
    requires Inv(s) && t in s.threads && Clear(s, t)
    ensures Leads(s, mvs, s') && OnlySteps(mvs) && Inv(s')
    ensures s'.threads - {t} == s.threads - {t}
    ensures t in s'.threads ==> Clear(s', t) && Rank(s', s'.threads[t]) < Rank(s, s.threads[t])
  {
    ClearCanStep(s, t);
    var pick :| CanStep(s, t, pick);
    s' := DoStep(s, t, pick);
    assert CollectOk(s, s.threads[t]) by { assert ThreadOk(s, t); }
    StepKeepsClear(s, t, pick);
    assert Inv(s') by { StepRefines(s, t, pick); }
    LeadsFirst(s, Step(t, pick), s', [], s');
    mvs := [Step(t, pick)] + [];
  }

  /** A thread in the clear finishes its operation on its own; the others stay where they are. */
  lemma {:induction false} FinishOne(s: State, t: ThreadId) returns (mvs: seq<Move>, s': State)
    requires Inv(s) && t in s.threads && Clear(s, t)
    ensures Leads(s, mvs, s') && OnlySteps(mvs) && Inv(s') && s'.threads == s.threads - {t}
    decreases Rank(s, s.threads[t])
  {
    mvs, s' := SoloStep(s, t);
    if t in s'.threads {
      var rest, end := FinishOne(s', t);
      LeadsJoin(s, mvs, s', rest, end);
      mvs, s' := mvs + rest, end;
    } else {
      assert s'.threads == s'.threads - {t};
    }
  }

  /**
   Whoever holds the deletion mutex is in the clear; failing that, whoever holds a cache mutex;
   failing that, anyone.
   */
  lemma SomeoneIsClear(s: State) returns (t: ThreadId)
    requires Inv(s) && s.threads != map[]
    ensures t in s.threads && Clear(s, t)
  {
    t :| t in s.threads;
    if s.holder.Some? {
      t := s.holder.value;
      assert ThreadOk(s, t);
    } else if s.threads[t].at.Enter? && !CanEnter(s, s.threads[t].op) {
      assert ThreadOk(s, t);
      assert !CanStep(s, t, Any);
      var u := EnterBlockedByHolder(s, t);
      t := u;
    }
  }

  lemma {:induction false} FinishAll(s: State) returns (mvs: seq<Move>, s': State)
    requires Inv(s)
    ensures Leads(s, mvs, s') && OnlySteps(mvs) && s'.threads == map[]
    decreases |s.threads|
  {
    if s.threads == map[] {
      mvs, s' := [], s;
    } else {
      var t := SomeoneIsClear(s);
      var first, mid := FinishOne(s, t);
      assert mid.threads.Keys == s.threads.Keys - {t};
      var rest;
      rest, s' := FinishAll(mid);
      LeadsJoin(s, first, mid, rest, s');
      mvs := first + rest;
    }
  }

  /** From every reachable state, the operations in progress can all be finished without any new call. */
  lemma EveryOperationCanFinish(s: State)
    requires Reachable(s)
    ensures exists mvs, s' :: Leads(s, mvs, s') && OnlySteps(mvs) && s'.threads == map[]
  {
    ReachableInv(s);
    var mvs, s' := FinishAll(s);
  }
}
