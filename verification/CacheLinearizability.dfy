/**
 The cache operations are linearizable: however the steps of any number of threads interleave,
 every operation takes effect at one instant between its call and its return, and returns what
 an atomic map would return at that instant.
 */
module CacheLinearizability {
  import opened Prelude
  import opened L = CacheLedger
  import opened T = CacheThreads
  import opened R = CacheRefinement

  type Maps = map<CacheId, Entries>

  ghost function With(m: Entries, p: Object): Entries {
    m[p.id := p]
  }

  ghost function Without(m: Entries, id: Id): Entries {
    m - {id}
  }

  /** The sequential specification: each operation on plain maps, in one piece. */
  ghost function Atomic(op: Op, maps: Maps): (Maps, Result)
    requires op.OpCollect? || op.c in maps
  {
    match op
    case OpStore(c, p) => (if p.Some? then maps[c := With(maps[c], p.value)] else maps, Void)
    case OpRemove(c, p) => (if p.Some? then maps[c := Without(maps[c], p.value.id)] else maps, Void)
    case OpFind(c, id) => (maps, Found(if id in maps[c] then Some(maps[c][id]) else None))
    case OpCount(c) => (maps, Size(|maps[c]|))
    case OpRehash(_) => (maps, Void)
    case OpCollect => (maps, Void)
    case OpDestroy(c) => (maps - {c}, Void)
  }

  ghost function EmptyMaps(cs: set<CacheId>): Maps {
    map c | c in cs :: map[]
  }

  /** The maps after the logged operations, applied one after the other to empty caches. */
  ghost function Replay(cs: set<CacheId>, log: seq<LogEntry>): Maps {
    if log == [] then EmptyMaps(cs)
    else
      var before := Replay(cs, log[..|log| - 1]);
      var op := log[|log| - 1].op;
      if op.OpCollect? || op.c in before then Atomic(op, before).0 else before
  }

  /** Each logged operation returned what the sequential specification returns at its turn. */
  ghost predicate Legal(cs: set<CacheId>, log: seq<LogEntry>) {
    log != [] ==>
      var before := Replay(cs, log[..|log| - 1]);
      var e := log[|log| - 1];
      && Legal(cs, log[..|log| - 1])
      && (e.op.OpCollect? || e.op.c in before)
      && e.res == Atomic(e.op, before).1
  }

  /** Each entry belongs to a call of its own, and took effect after that call and in log order. */
  ghost predicate WellLogged(hist: seq<Event>, log: seq<LogEntry>) {
    && (forall k :: 0 <= k < |log| ==>
          && log[k].call < log[k].at <= |hist|
          && hist[log[k].call].Call? && hist[log[k].call].op == log[k].op)
    && (forall j, k :: 0 <= j < k < |log| ==> log[j].at <= log[k].at && log[j].call != log[k].call)
  }

  ghost predicate Logged(log: seq<LogEntry>, call: nat, res: Result, until: nat) {
    exists k :: 0 <= k < |log| && log[k].call == call && log[k].res == res && log[k].at <= until
  }

  /** Every return is the return of a logged operation, with its result, that took effect before it. */
  ghost predicate Returned(hist: seq<Event>, log: seq<LogEntry>) {
    forall r :: 0 <= r < |hist| && hist[r].Ret? ==> Logged(log, hist[r].call, hist[r].res, r)
  }

  ghost predicate IsLinearization(cs: set<CacheId>, hist: seq<Event>, log: seq<LogEntry>) {
    WellLogged(hist, log) && Returned(hist, log) && Legal(cs, log)
  }

  /** The order of the log respects real time: what returned before another was called comes first. */
  lemma RealTimeOrder(cs: set<CacheId>, hist: seq<Event>, log: seq<LogEntry>, r: nat, j: nat, k: nat)
    requires IsLinearization(cs, hist, log)
    requires j < |log| && k < |log| && r < |hist|
    requires hist[r].Ret? && hist[r].call == log[j].call && r < log[k].call
    ensures j < k
  {}

  // ---------------------------------------------------------------- what each step logs

  /** The result an operation has committed to, once it has taken effect. */
  function Committed(pc: Pc): Option<Result> {
    match pc.at
    case Replace(_) => Some(Void)
    case UnlockDeletion(res) => Some(res)
    case UnlockCache(res) => Some(res)
    case Return(res) => Some(res)
    case _ => None
  }

  /** A step either logs nothing and commits to nothing, or does both. */
  ghost predicate LogsOnce(s: State, s': State, t: ThreadId) {
    && t in s.threads
    && var pc := s.threads[t];
       if t in s'.threads then
         && s'.hist == s.hist
         && s'.threads == s.threads[t := s'.threads[t]]
         && s'.threads[t].call == pc.call && s'.threads[t].op == pc.op
         && (if Committed(s'.threads[t]) == Committed(pc) then s'.log == s.log
             else Committed(pc).None? && Committed(s'.threads[t]).Some?
                  && s'.log == s.log + [LogEntry(pc.call, pc.op, Committed(s'.threads[t]).value, |s.hist|)])
       else
         && s'.threads == s.threads - {t}
         && Committed(pc).Some? && s'.hist == s.hist + [Ret(pc.call, Committed(pc).value)] && s'.log == s.log
  }

  /** Which atomic action goes with the entry a step logs, and with what result. */
  ghost predicate EffectFits(s: State, s': State, t: ThreadId, a: Action)
    requires t in s.threads
  {
    if s'.log == s.log then a.Skip? || a.Free?
    else
      && |s'.log| == |s.log| + 1
      && var res := s'.log[|s.log|].res;
         match s.threads[t].op
         case OpStore(c, p) => a == (if p.Some? then Store(c, p.value) else Skip) && res == Void
         case OpRemove(c, p) => a == (if p.Some? then Remove(c, p.value) else Skip) && res == Void
         case OpFind(c, id) => a == Skip && HasMap(s, s.threads[t].op)
             && res == Found(Lookup(MapOf(s, s.threads[t].op), id))
         case OpCount(c) => a == Skip && HasMap(s, s.threads[t].op) && res == Size(|MapOf(s, s.threads[t].op)|)
         case _ => a == Skip && res == Void
  }

  ghost predicate LogsWell(s: State, t: ThreadId, pick: Pick)
    requires CanStep(s, t, pick)
  {
    LogsOnce(s, DoStep(s, t, pick), t) && EffectFits(s, DoStep(s, t, pick), t, ActionOf(s, Step(t, pick)))
  }

  lemma EnterNullLogs(s: State, t: ThreadId, pick: Pick)
    requires CanStep(s, t, pick) && s.threads[t].at.Enter? && IsNull(s.threads[t].op)
    ensures LogsWell(s, t, pick)
  {}

  lemma EnterWriterLogs(s: State, t: ThreadId, pick: Pick)
    requires CanStep(s, t, pick) && s.threads[t].at.Enter? && Writes(s.threads[t].op) && !IsNull(s.threads[t].op)
    ensures LogsWell(s, t, pick)
  {}

  lemma EnterOtherLogs(s: State, t: ThreadId, pick: Pick)
    requires CanStep(s, t, pick) && s.threads[t].at.Enter? && !Writes(s.threads[t].op)
    ensures LogsWell(s, t, pick)
  {}

  /** store finds the pointer it was given. */
  predicate Restores(s: State, pc: Pc) {
    pc.at.Search? && pc.op.OpStore? && pc.op.p.Some? && HasMap(s, pc.op)
        && Lookup(MapOf(s, pc.op), pc.op.p.value.id) == pc.op.p
  }

  lemma RestoreLogs(s: State, t: ThreadId, pick: Pick)
    requires CanStep(s, t, pick) && Restores(s, s.threads[t])
    ensures LogsWell(s, t, pick)
  {}

  lemma StoreSearchLogs(s: State, t: ThreadId, pick: Pick)
    requires CanStep(s, t, pick) && s.threads[t].at.Search? && s.threads[t].op.OpStore? && !Restores(s, s.threads[t])
    ensures LogsWell(s, t, pick)
  {}

  lemma RemoveSearchLogs(s: State, t: ThreadId, pick: Pick)
    requires CanStep(s, t, pick) && s.threads[t].at.Search? && s.threads[t].op.OpRemove?
    ensures LogsWell(s, t, pick)
  {}

  lemma ReadSearchLogs(s: State, t: ThreadId, pick: Pick)
    requires CanStep(s, t, pick) && s.threads[t].at.Search? && Reads(s.threads[t].op)
    ensures LogsWell(s, t, pick)
  {}

  lemma InsertLogs(s: State, t: ThreadId, pick: Pick)
    requires CanStep(s, t, pick) && s.threads[t].at.Insert?
    ensures LogsWell(s, t, pick)
  {}

  lemma EnqueueLogs(s: State, t: ThreadId, pick: Pick)
    requires CanStep(s, t, pick) && s.threads[t].at.Enqueue?
    ensures LogsWell(s, t, pick)
  {}

  lemma BuryLogs(s: State, t: ThreadId, pick: Pick)
    requires CanStep(s, t, pick) && s.threads[t].at.Bury?
    ensures LogsWell(s, t, pick)
  {}

  lemma QuietUpdateLogs(s: State, t: ThreadId, pick: Pick)
    requires CanStep(s, t, pick) && (s.threads[t].at.Replace? || s.threads[t].at.Erase?)
    ensures LogsWell(s, t, pick)
  {}

  lemma CopyLogs(s: State, t: ThreadId, pick: Pick)
    requires CanStep(s, t, pick) && (s.threads[t].at.Allocate? || s.threads[t].at.Copy?)
    ensures LogsWell(s, t, pick)
  {}

  lemma DropLogs(s: State, t: ThreadId, pick: Pick)
    requires CanStep(s, t, pick) && s.threads[t].at.Drop?
    ensures LogsWell(s, t, pick)
  {}

  lemma SwapLogs(s: State, t: ThreadId, pick: Pick)
    requires CanStep(s, t, pick) && s.threads[t].at.Swap?
    ensures LogsWell(s, t, pick)
  {}

  lemma ForgetLogs(s: State, t: ThreadId, pick: Pick)
    requires CanStep(s, t, pick) && s.threads[t].at.Forget?
    ensures LogsWell(s, t, pick)
  {}

  lemma ScanLogs(s: State, t: ThreadId, pick: Pick)
    requires CanStep(s, t, pick) && s.threads[t].at.Scan?
    ensures LogsWell(s, t, pick)
  {}

  lemma LocksLogs(s: State, t: ThreadId, pick: Pick)
    requires CanStep(s, t, pick)
             && (s.threads[t].at.AwaitDeletion? || s.threads[t].at.AwaitDeletionToRemove?
             || s.threads[t].at.AwaitDeletionToCollect?)
    ensures LogsWell(s, t, pick)
  {}

  lemma ReturnLogs(s: State, t: ThreadId, pick: Pick)
    requires CanStep(s, t, pick) && s.threads[t].at.Return?
    ensures LogsWell(s, t, pick)
  {}

  lemma UnlocksLogs(s: State, t: ThreadId, pick: Pick)
    requires CanStep(s, t, pick) && (s.threads[t].at.UnlockDeletion? || s.threads[t].at.UnlockCache?)
    ensures LogsWell(s, t, pick)
  {}

  lemma StepLogs(s: State, t: ThreadId, pick: Pick)
    requires CanStep(s, t, pick)
    ensures LogsWell(s, t, pick)
  {
    match s.threads[t].at
    case Enter =>
      if IsNull(s.threads[t].op) { EnterNullLogs(s, t, pick); }
      else if Writes(s.threads[t].op) { EnterWriterLogs(s, t, pick); }
      else { EnterOtherLogs(s, t, pick); }
    case Search =>
      if Restores(s, s.threads[t]) { RestoreLogs(s, t, pick); }
      else if s.threads[t].op.OpStore? { StoreSearchLogs(s, t, pick); }
      else if s.threads[t].op.OpRemove? { RemoveSearchLogs(s, t, pick); }
      else { ReadSearchLogs(s, t, pick); }
    case Insert => InsertLogs(s, t, pick);
    case Enqueue(_) => EnqueueLogs(s, t, pick);
    case Bury(_) => BuryLogs(s, t, pick);
    case Replace(_) => QuietUpdateLogs(s, t, pick);
    case Erase(_) => QuietUpdateLogs(s, t, pick);
    case Scan(_) => ScanLogs(s, t, pick);
    case Forget(_, _) => ForgetLogs(s, t, pick);
    case AwaitDeletion(_) => LocksLogs(s, t, pick);
    case AwaitDeletionToRemove => LocksLogs(s, t, pick);
    case AwaitDeletionToCollect(_) => LocksLogs(s, t, pick);
    case UnlockDeletion(_) => UnlocksLogs(s, t, pick);
    case UnlockCache(_) => UnlocksLogs(s, t, pick);
    case Return(_) => ReturnLogs(s, t, pick);
    case Drop(_) => DropLogs(s, t, pick);
    case Allocate => CopyLogs(s, t, pick);
    case Copy(_, _) => CopyLogs(s, t, pick);
    case _ => SwapLogs(s, t, pick);
  }

  /** When a step logs, the abstract maps change as the sequential specification says, with that result. */
  ghost predicate TakesEffect(s: State, s': State, t: ThreadId) {
    && t in s.threads
    && var op := s.threads[t].op;
       if s'.log == s.log then Abs(s').caches == Abs(s).caches
       else
         && |s'.log| == |s.log| + 1
         && (op.OpCollect? || op.c in s.cells)
         && Atomic(op, Abs(s).caches) == (Abs(s').caches, s'.log[|s.log|].res)
  }

  lemma StoreIsUpdate(m: Entries, p: Object)
    ensures StoreEntries(m, p) == With(m, p)
  {}

  /** The thread about to log reads the abstract map of its cache in memory. */
  lemma SearchSeesView(s: State, t: ThreadId)
    requires Inv(s) && t in s.threads && s.threads[t].at.Search?
    ensures !s.threads[t].op.OpCollect? && s.threads[t].op.c in s.cells
    ensures Contents(s.cells[s.threads[t].op.c]) == Abs(s).caches[s.threads[t].op.c]
  {}

  lemma ActionTakesEffect(s: State, s': State, t: ThreadId, a: Action)
    requires Inv(s) && t in s.threads && Refines(s, s', a) && EffectFits(s, s', t, a)
    requires Reads(s.threads[t].op) && s'.log != s.log ==> s.threads[t].at.Search?
    ensures TakesEffect(s, s', t)
  {
    assert ThreadOk(s, t);
    var op := s.threads[t].op;
    if s'.log != s.log {
      match op
      case OpStore(c, Some(p)) => StoreIsUpdate(Abs(s).caches[c], p);
      case OpFind(_, _) => SearchSeesView(s, t);
      case OpCount(_) => SearchSeesView(s, t);
      case _ =>
    }
  }

  lemma StepTakesEffect(s: State, t: ThreadId, pick: Pick)
    requires Inv(s) && CanStep(s, t, pick)
    ensures TakesEffect(s, DoStep(s, t, pick), t)
  {
    StepRefines(s, t, pick);
    StepLogs(s, t, pick);
    ActionTakesEffect(s, DoStep(s, t, pick), t, ActionOf(s, Step(t, pick)));
  }

  // ---------------------------------------------------------------- the history invariant

  /** An operation in progress is logged exactly when it has committed to its result. */
  ghost predicate Pending(s: State, t: ThreadId)
    requires t in s.threads
  {
    var pc := s.threads[t];
    && pc.call < |s.hist| && s.hist[pc.call] == Call(t, pc.op)
    && (Committed(pc).None? ==> forall k :: 0 <= k < |s.log| ==> s.log[k].call != pc.call)
    && (Committed(pc).Some? ==> Logged(s.log, pc.call, Committed(pc).value, |s.hist|))
  }

  ghost predicate LogInv(cs: set<CacheId>, s: State) {
    && IsLinearization(cs, s.hist, s.log)
    && Replay(cs, s.log) == Abs(s).caches
    && (forall t :: t in s.threads ==> Pending(s, t))
  }

  lemma LoggedStays(log: seq<LogEntry>, log': seq<LogEntry>, call: nat, res: Result, until: nat, until': nat)
    requires Logged(log, call, res, until) && log <= log' && until <= until'
    ensures Logged(log', call, res, until')
  {}

  /** A pending operation is not disturbed by longer histories and by entries of other calls. */
  lemma PendingStays(s: State, s': State, u: ThreadId)
    requires u in s.threads && u in s'.threads && s'.threads[u] == s.threads[u] && Pending(s, u)
    requires s.hist <= s'.hist && s.log <= s'.log
    requires forall k :: |s.log| <= k < |s'.log| ==> s'.log[k].call != s.threads[u].call
    ensures Pending(s', u)
  {}

  lemma ReturnedStays(hist: seq<Event>, log: seq<LogEntry>, e: LogEntry)
    requires Returned(hist, log)
    ensures Returned(hist, log + [e])
  {
    forall r | 0 <= r < |hist| && hist[r].Ret? ensures Logged(log + [e], hist[r].call, hist[r].res, r) {
      LoggedStays(log, log + [e], hist[r].call, hist[r].res, r, r);
    }
  }

  lemma LegalGrows(cs: set<CacheId>, log: seq<LogEntry>, e: LogEntry)
    requires Legal(cs, log)
    requires var m := Replay(cs, log); (e.op.OpCollect? || e.op.c in m) && e.res == Atomic(e.op, m).1
    ensures Legal(cs, log + [e]) && Replay(cs, log + [e]) == Atomic(e.op, Replay(cs, log)).0
  {}

  lemma LinearizationGrows(cs: set<CacheId>, hist: seq<Event>, log: seq<LogEntry>, e: LogEntry)
    requires IsLinearization(cs, hist, log)
    requires e.call < e.at == |hist| && hist[e.call].Call? && hist[e.call].op == e.op
    requires forall k :: 0 <= k < |log| ==> log[k].call != e.call
    requires var m := Replay(cs, log); (e.op.OpCollect? || e.op.c in m) && e.res == Atomic(e.op, m).1
    ensures IsLinearization(cs, hist, log + [e])
  {
    ReturnedStays(hist, log, e);
    LegalGrows(cs, log, e);
  }

  lemma EffectKeepsPending(s: State, s': State, t: ThreadId)
    requires (forall u :: u in s.threads ==> Pending(s, u)) && LogsOnce(s, s', t)
    requires t in s'.threads && s'.log != s.log
    ensures forall u :: u in s'.threads ==> Pending(s', u)
  {
    assert Pending(s, t);
    var e := s'.log[|s.log|];
    assert e.call == s.threads[t].call;
    forall u | u in s'.threads ensures Pending(s', u) {
      if u != t {
        assert Pending(s, u);
        PendingStays(s, s', u);
      }
    }
  }

  lemma EffectKeepsLog(cs: set<CacheId>, s: State, s': State, t: ThreadId)
    requires LogInv(cs, s) && LogsOnce(s, s', t) && TakesEffect(s, s', t)
    requires t in s'.threads && s'.log != s.log
    ensures LogInv(cs, s')
  {
    var pc := s.threads[t];
    var e := LogEntry(pc.call, pc.op, Committed(s'.threads[t]).value, |s.hist|);
    EffectKeepsPending(s, s', t);
    assert s'.log == s.log + [e] && Pending(s, t);
    LinearizationGrows(cs, s.hist, s.log, e);
    LegalGrows(cs, s.log, e);
    assert s'.log[|s.log|] == e;
  }

  lemma ReturnIsHarmless(cs: set<CacheId>, hist: seq<Event>, log: seq<LogEntry>, call: nat, res: Result)
    requires IsLinearization(cs, hist, log) && Logged(log, call, res, |hist|)
    ensures IsLinearization(cs, hist + [Ret(call, res)], log)
  {}

  lemma ReturnKeepsLog(cs: set<CacheId>, s: State, s': State, t: ThreadId)
    requires LogInv(cs, s) && LogsOnce(s, s', t) && TakesEffect(s, s', t)
    requires t !in s'.threads
    ensures LogInv(cs, s')
  {
    assert Pending(s, t);
    ReturnIsHarmless(cs, s.hist, s.log, s.threads[t].call, Committed(s.threads[t]).value);
    forall u | u in s'.threads ensures Pending(s', u) {
      assert Pending(s, u);
      PendingStays(s, s', u);
    }
  }

  lemma QuietKeepsLog(cs: set<CacheId>, s: State, s': State, t: ThreadId)
    requires LogInv(cs, s) && LogsOnce(s, s', t) && TakesEffect(s, s', t)
    requires t in s'.threads && s'.log == s.log
    ensures LogInv(cs, s')
  {}

  lemma CallIsHarmless(cs: set<CacheId>, hist: seq<Event>, log: seq<LogEntry>, e: Event)
    requires IsLinearization(cs, hist, log) && e.Call?
    ensures IsLinearization(cs, hist + [e], log)
  {}

  lemma InvokeKeepsLog(cs: set<CacheId>, s: State, t: ThreadId, op: Op)
    requires Inv(s) && LogInv(cs, s) && Can(s, Invoke(t, op))
    ensures LogInv(cs, Do(s, Invoke(t, op)))
  {
    var s' := Do(s, Invoke(t, op));
    assert Abs(s').caches == Abs(s).caches by { MoveRefines(s, Invoke(t, op)); }
    CallIsHarmless(cs, s.hist, s.log, Call(t, op));
    forall u | u in s'.threads ensures Pending(s', u) {
      if u != t {
        assert Pending(s, u);
        PendingStays(s, s', u);
      }
    }
  }

  lemma DestroyIsLogged(cs: set<CacheId>, hist: seq<Event>, log: seq<LogEntry>, t: ThreadId, c: CacheId)
    requires IsLinearization(cs, hist, log) && c in Replay(cs, log)
    ensures var log' := log + [LogEntry(|hist|, OpDestroy(c), Void, |hist| + 1)];
            && IsLinearization(cs, hist + [Call(t, OpDestroy(c)), Ret(|hist|, Void)], log')
            && Replay(cs, log') == Replay(cs, log) - {c}
  {
    var called := hist + [Call(t, OpDestroy(c))];
    var e := LogEntry(|hist|, OpDestroy(c), Void, |hist| + 1);
    CallIsHarmless(cs, hist, log, Call(t, OpDestroy(c)));
    LinearizationGrows(cs, called, log, e);
    LegalGrows(cs, log, e);
    assert Logged(log + [e], |hist|, Void, |called|) by { assert (log + [e])[|log|] == e; }
    ReturnIsHarmless(cs, called, log + [e], |hist|, Void);
    assert called + [Ret(|hist|, Void)] == hist + [Call(t, OpDestroy(c)), Ret(|hist|, Void)];
  }

  lemma DestroyKeepsPending(s: State, t: ThreadId, c: CacheId, u: ThreadId)
    requires Can(s, DestroyCache(t, c)) && u in s.threads && Pending(s, u)
    ensures Pending(Do(s, DestroyCache(t, c)), u)
  {
    PendingStays(s, Do(s, DestroyCache(t, c)), u);
  }

  lemma DestroyKeepsHistory(cs: set<CacheId>, s: State, t: ThreadId, c: CacheId)
    requires IsLinearization(cs, s.hist, s.log) && c in Replay(cs, s.log) && Can(s, DestroyCache(t, c))
    ensures var s' := Do(s, DestroyCache(t, c));
            IsLinearization(cs, s'.hist, s'.log) && Replay(cs, s'.log) == Replay(cs, s.log) - {c}
  {
    DestroyIsLogged(cs, s.hist, s.log, t, c);
  }

  lemma DestroyKeepsLog(cs: set<CacheId>, s: State, t: ThreadId, c: CacheId)
    requires Inv(s) && LogInv(cs, s) && Can(s, DestroyCache(t, c))
    ensures LogInv(cs, Do(s, DestroyCache(t, c)))
  {
    var s' := Do(s, DestroyCache(t, c));
    assert Abs(s').caches == Abs(s).caches - {c} by { MoveRefines(s, DestroyCache(t, c)); }
    DestroyKeepsHistory(cs, s, t, c);
    forall u | u in s.threads ensures Pending(s', u) { DestroyKeepsPending(s, t, c, u); }
    assert s'.threads == s.threads;
  }

  lemma MoveKeepsLog(cs: set<CacheId>, s: State, mv: Move)
    requires Inv(s) && LogInv(cs, s) && Can(s, mv)
    ensures LogInv(cs, Do(s, mv))
  {
    match mv
    case Invoke(t, op) => InvokeKeepsLog(cs, s, t, op);
    case Wait(n) =>
      MoveRefines(s, mv);
      forall u | u in s.threads ensures Pending(Do(s, mv), u) { assert Pending(s, u); }
    case DestroyCache(t, c) => DestroyKeepsLog(cs, s, t, c);
    case Step(t, pick) =>
      var s' := DoStep(s, t, pick);
      StepLogs(s, t, pick);
      StepTakesEffect(s, t, pick);
      if t !in s'.threads {
        ReturnKeepsLog(cs, s, s', t);
      } else if s'.log != s.log {
        EffectKeepsLog(cs, s, s', t);
      } else {
        QuietKeepsLog(cs, s, s', t);
      }
  }
}
