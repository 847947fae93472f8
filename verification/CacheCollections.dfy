/**
 What a whole collection achieves among other threads: between taking the deletion mutex and
 finishing its scan it frees every entry that is due at its clock reading, once, and no other.
 */
module CacheCollections {
  import opened Prelude
  import opened L = CacheLedger
  import opened T = CacheThreads
  import opened R = CacheRefinement
  import opened Z = CacheLinearizability
  import opened G = CacheGuarantees

  /** The call `call` of thread `t` is a collection about to take the deletion mutex, having read the clock as `now`. */
  ghost predicate Begins(s: State, mv: Move, call: nat, now: Time) {
    && mv.Step? && CanStep(s, mv.t, mv.pick)
    && s.threads[mv.t].op.OpCollect? && s.threads[mv.t].call == call
        && s.threads[mv.t].at == AwaitDeletionToCollect(now)
  }

  /** The same call walks the queue without finding anything due, and ends its scan. */
  ghost predicate Ends(s: State, mv: Move, call: nat) {
    && mv.Step? && CanStep(s, mv.t, mv.pick)
    && s.threads[mv.t].call == call && s.threads[mv.t].at.Scan? && !mv.pick.Victim?
  }

  /** `s` is inside the scan; what is still due and what was freed since add up to what was due in `before`. */
  ghost predicate Working(before: State, s: State, t: ThreadId, call: nat, now: Time) {
    && t in s.threads && s.threads[t].op.OpCollect? && s.threads[t].call == call
    && Kept(s.queue, now) == Kept(before.queue, now)
    && match s.threads[t].at
       case Scan(n) =>
         n == now && s.freed + multiset(Victims(s.queue, now)) == before.freed + multiset(Victims(before.queue, now))
       case Forget(o, n) =>
         && n == now && Expired(s.queue, o, now)
         && s.freed + multiset(Victims(s.queue - {o}, now)) == before.freed + multiset(Victims(before.queue, now))
       case _ => false
  }

  /** The scan of this call has ended. */
  ghost predicate Over(s: State, t: ThreadId, call: nat) {
    t in s.threads && s.threads[t].call == call ==>
      s.threads[t].op.OpCollect? && (s.threads[t].at.UnlockDeletion? || s.threads[t].at.Return?)
  }

  lemma BeginWorks(s: State, t: ThreadId, pick: Pick, call: nat, now: Time)
    requires Begins(s, Step(t, pick), call, now)
    ensures Working(s, DoStep(s, t, pick), t, call, now)
  {}

  lemma ScanWorks(before: State, s: State, t: ThreadId, pick: Pick, call: nat, now: Time)
    requires Working(before, s, t, call, now) && CanStep(s, t, pick) && s.threads[t].at.Scan?
    ensures var s' := DoStep(s, t, pick); if pick.Victim? then Working(before, s', t, call, now) else Over(s', t, call)
  {
    if pick.Victim? { OneVictimLess(s.queue, pick.o, now); }
  }

  lemma ForgetWorks(before: State, s: State, t: ThreadId, pick: Pick, call: nat, now: Time)
    requires Working(before, s, t, call, now) && CanStep(s, t, pick) && s.threads[t].at.Forget?
    ensures Working(before, DoStep(s, t, pick), t, call, now)
  {
    OneVictimLess(s.queue, s.threads[t].at.o, now);
  }

  /** No other thread's step touches the queue or frees anything while `t` holds the deletion mutex. */
  lemma OthersWait(s: State, t: ThreadId, u: ThreadId, pick: Pick)
    requires Inv(s) && s.holder == Some(t) && t in s.threads && u != t && CanStep(s, u, pick)
    ensures var s' := DoStep(s, u, pick);
            s'.queue == s.queue && s'.freed == s.freed && t in s'.threads && s'.threads[t] == s.threads[t]
  {
    assert ThreadOk(s, u);
    InvReady(s, u, pick);
    StepActs(s, u, pick, Target(s.threads[u].op));
    assert !HoldsDeletion(s.threads[u]);
    assert !ActionOf(s, Step(u, pick)).Free?;
  }

  lemma OthersKeepWorking(before: State, s: State, mv: Move, t: ThreadId, call: nat, now: Time)
    requires Inv(s) && Can(s, mv) && Working(before, s, t, call, now) && !(mv.Step? && mv.t == t)
    ensures Working(before, Do(s, mv), t, call, now)
  {
    if mv.Step? {
      assert s.holder == Some(t) by { assert ThreadOk(s, t); }
      OthersWait(s, t, mv.t, mv.pick);
    }
  }

  lemma MoveWorks(before: State, s: State, mv: Move, t: ThreadId, call: nat, now: Time)
    requires Inv(s) && Can(s, mv) && Working(before, s, t, call, now)
    ensures Working(before, Do(s, mv), t, call, now) || Over(Do(s, mv), t, call)
  {
    if mv.Step? && mv.t == t {
      if s.threads[t].at.Scan? {
        ScanWorks(before, s, t, mv.pick, call, now);
      } else {
        ForgetWorks(before, s, t, mv.pick, call, now);
      }
    } else {
      OthersKeepWorking(before, s, mv, t, call, now);
    }
  }

  lemma OwnStepStaysOver(s: State, t: ThreadId, pick: Pick, call: nat)
    requires CanStep(s, t, pick) && s.threads[t].call == call && Over(s, t, call)
    ensures Over(DoStep(s, t, pick), t, call)
  {}

  lemma OverStays(s: State, mv: Move, t: ThreadId, call: nat)
    requires Can(s, mv) && Over(s, t, call) && call < |s.hist|
    ensures Over(Do(s, mv), t, call) && call < |Do(s, mv).hist|
  {
    if mv.Step? {
      assert LogsOnce(s, DoStep(s, mv.t, mv.pick), mv.t) by { StepLogs(s, mv.t, mv.pick); }
      if mv.t == t && s.threads[t].call == call { OwnStepStaysOver(s, t, mv.pick, call); }
    }
  }

  lemma HistoryGrows(s: State, mv: Move)
    requires Can(s, mv)
    ensures |s.hist| <= |Do(s, mv).hist|
  {
    if mv.Step? {
      assert LogsOnce(s, DoStep(s, mv.t, mv.pick), mv.t) by { StepLogs(s, mv.t, mv.pick); }
    }
  }

  lemma {:induction false} ScanSoFar(
      cs: set<CacheId>, ss: seq<State>, mvs: seq<Move>, i: nat, n: nat, t: ThreadId, call: nat, now: Time)
    requires IsExecution(cs, ss, mvs) && i < n <= |mvs| && Begins(ss[i], mvs[i], call, now) && mvs[i].t == t
    ensures call < |ss[n].hist|
    ensures Working(ss[i], ss[n], t, call, now) || Over(ss[n], t, call)
  {
    assert Can(ss[n - 1], mvs[n - 1]) && ss[n - 1 + 1] == Do(ss[n - 1], mvs[n - 1]);
    if n == i + 1 {
      BeginWorks(ss[i], t, mvs[i].pick, call, now);
      assert call < |ss[i].hist| by { ExecutionLog(cs, ss, mvs, i); assert Pending(ss[i], t); }
    } else {
      ScanSoFar(cs, ss, mvs, i, n - 1, t, call, now);
      if Over(ss[n - 1], t, call) {
        OverStays(ss[n - 1], mvs[n - 1], t, call);
      } else {
        assert Inv(ss[n - 1]) by { ExecutionInv(cs, ss, mvs); }
        MoveWorks(ss[i], ss[n - 1], mvs[n - 1], t, call, now);
      }
    }
    HistoryGrows(ss[n - 1], mvs[n - 1]);
  }

  /** The call `call` starts a collection: it is about to read the clock. */
  ghost predicate Enters(s: State, mv: Move, call: nat) {
    && mv.Step? && CanStep(s, mv.t, mv.pick)
    && s.threads[mv.t].op.OpCollect? && s.threads[mv.t].call == call && s.threads[mv.t].at.Enter?
  }

  /** The call has read the clock as `now` and waits for the mutex, or is past that. */
  ghost predicate HasRead(s: State, t: ThreadId, call: nat, now: Time) {
    t in s.threads && s.threads[t].call == call ==>
      && s.threads[t].op.OpCollect?
      && (|| s.threads[t].at == AwaitDeletionToCollect(now) || s.threads[t].at.Scan? || s.threads[t].at.Forget?
          || s.threads[t].at.UnlockDeletion? || s.threads[t].at.Return?)
  }

  lemma EnterReads(s: State, t: ThreadId, pick: Pick, call: nat)
    requires Enters(s, Step(t, pick), call)
    ensures HasRead(DoStep(s, t, pick), t, call, s.clock)
  {}

  lemma OwnStepKeepsRead(s: State, t: ThreadId, pick: Pick, call: nat, now: Time)
    requires CanStep(s, t, pick) && t in s.threads && s.threads[t].call == call && HasRead(s, t, call, now)
    ensures HasRead(DoStep(s, t, pick), t, call, now)
  {}

  lemma ReadStays(s: State, mv: Move, t: ThreadId, call: nat, now: Time)
    requires Can(s, mv) && HasRead(s, t, call, now) && call < |s.hist|
    ensures HasRead(Do(s, mv), t, call, now) && call < |Do(s, mv).hist|
  {
    if mv.Step? {
      assert LogsOnce(s, DoStep(s, mv.t, mv.pick), mv.t) by { StepLogs(s, mv.t, mv.pick); }
      if mv.t == t && s.threads[t].call == call { OwnStepKeepsRead(s, t, mv.pick, call, now); }
    }
  }

  lemma {:induction false} ReadSoFar(
      cs: set<CacheId>, ss: seq<State>, mvs: seq<Move>, e: nat, n: nat, t: ThreadId, call: nat)
    requires IsExecution(cs, ss, mvs) && e < n <= |mvs| && Enters(ss[e], mvs[e], call) && mvs[e].t == t
    ensures HasRead(ss[n], t, call, ss[e].clock) && call < |ss[n].hist|
  {
    assert Can(ss[n - 1], mvs[n - 1]) && ss[n - 1 + 1] == Do(ss[n - 1], mvs[n - 1]);
    if n == e + 1 {
      EnterReads(ss[e], t, mvs[e].pick, call);
      assert call < |ss[e].hist| by { ExecutionLog(cs, ss, mvs, e); assert Pending(ss[e], t); }
      HistoryGrows(ss[e], mvs[e]);
    } else {
      ReadSoFar(cs, ss, mvs, e, n - 1, t, call);
      ReadStays(ss[n - 1], mvs[n - 1], t, call, ss[e].clock);
    }
  }

  /** A collection goes by the time at which it was entered, however long it then waits for the mutex. */
  lemma CollectionReadsClock(cs: set<CacheId>, ss: seq<State>, mvs: seq<Move>, e: nat, i: nat, call: nat, now: Time)
    requires IsExecution(cs, ss, mvs) && e < i < |mvs|
    requires Enters(ss[e], mvs[e], call) && Begins(ss[i], mvs[i], call, now) && mvs[i].t == mvs[e].t
    ensures now == ss[e].clock
  {
    ReadSoFar(cs, ss, mvs, e, i, mvs[e].t, call);
  }

  lemma NothingLeft(before: State, s: State, mv: Move, call: nat, now: Time)
    requires Ends(s, mv, call) && Working(before, s, mv.t, call, now)
    ensures s.queue == Kept(before.queue, now)
    ensures s.freed == before.freed + multiset(Victims(before.queue, now))
  {
    assert forall o :: o in s.queue ==> !Expired(s.queue, o, now);
    assert Victims(s.queue, now) == {};
    assert Kept(s.queue, now) == s.queue;
  }

  /**
   However the steps of other threads fall in between, a collection that ends its scan leaves in
   the queue exactly what was not due when it took the mutex, with the stamps it had, and has freed
   each due object once and nothing else.
   */
  lemma CollectionFreesExactlyTheDue(
      cs: set<CacheId>, ss: seq<State>, mvs: seq<Move>, i: nat, j: nat, call: nat, now: Time)
    requires IsExecution(cs, ss, mvs) && i < j < |mvs|
    requires Begins(ss[i], mvs[i], call, now) && Ends(ss[j], mvs[j], call) && mvs[j].t == mvs[i].t
    ensures ss[j].queue == Kept(ss[i].queue, now)
    ensures ss[j].freed == ss[i].freed + multiset(Victims(ss[i].queue, now))
    ensures forall o :: o in ss[j].queue <==> o in ss[i].queue && now <= ss[i].queue[o] + 60
    ensures forall o :: o in ss[j].queue ==> ss[j].queue[o] == ss[i].queue[o]
    ensures forall o :: ss[j].freed[o] ==
              ss[i].freed[o] + (if o in ss[i].queue && ss[i].queue[o] + 60 < now then 1 else 0)
  {
    ScanSoFar(cs, ss, mvs, i, j, mvs[i].t, call, now);
    NothingLeft(ss[i], ss[j], mvs[j], call, now);
  }

  // ---------------------------------------------------------------- what is taken out of a cache

  /** At move `i` a store or remove takes `o` out of a cache. */
  ghost predicate TakesOutNow(ss: seq<State>, mvs: seq<Move>, i: nat, o: Object)
    requires i < |mvs| && |ss| == |mvs| + 1
  {
    Enabled(Abs(ss[i]), ActionOf(ss[i], mvs[i])) && TakesOut(Abs(ss[i]), ActionOf(ss[i], mvs[i]), o)
  }

  /** While no thread is between deleting an object and erasing its entry, the abstract queue is the real one. */
  lemma QueueInView(s: State, mv: Move, call: nat, now: Time)
    requires Begins(s, mv, call, now)
    ensures Abs(s).queue == s.queue
  {}

  lemma TakenOutInExecution(cs: set<CacheId>, ss: seq<State>, mvs: seq<Move>, i: nat, j: nat, o: Object)
    requires IsExecution(cs, ss, mvs) && CallersObey(ss, mvs) && i < j < |ss| && i < |mvs| && TakesOutNow(ss, mvs, i, o)
    ensures WaitsOrFreed(Abs(ss[j]), o, ss[i].clock)
  {
    ExecutionRefinesRun(cs, ss, mvs);
    ObeyIsObey(ss, mvs);
    TakenOutOnce(AbsRun(ss), ActionRun(ss, mvs), i, j, o);
  }

  /**
   In every execution of obeying callers: an object that a store or remove takes out of a cache is
   freed, and once only, by the end of any later collection entered more than 60 seconds after that
   moment; and a collection entered no more than 60 seconds after it leaves the object as it is.
   */
  lemma TakenOutIsCollected(
      cs: set<CacheId>, ss: seq<State>, mvs: seq<Move>, i: nat, e: nat, b: nat, j: nat, o: Object, call: nat, now: Time)
    requires IsExecution(cs, ss, mvs) && CallersObey(ss, mvs) && i < b < j < |mvs| && e < b
    requires TakesOutNow(ss, mvs, i, o)
    requires Enters(ss[e], mvs[e], call) && Begins(ss[b], mvs[b], call, now) && Ends(ss[j], mvs[j], call)
    requires mvs[e].t == mvs[b].t == mvs[j].t
    ensures ss[i].clock + 60 < ss[e].clock ==> o !in ss[j].queue && ss[j].freed[o] == 1
    ensures ss[e].clock <= ss[i].clock + 60 ==>
              (o in ss[j].queue <==> o in ss[b].queue) && ss[j].freed[o] == ss[b].freed[o]
  {
    CollectionReadsClock(cs, ss, mvs, e, b, call, now);
    CollectionFreesExactlyTheDue(cs, ss, mvs, b, j, call, now);
    TakenOutInExecution(cs, ss, mvs, i, b, o);
    QueueInView(ss[b], mvs[b], call, now);
  }
}
