/**
 The threaded caches refine the ledger: every step keeps the lock and map invariants and is, on
 the abstract state, one atomic action or nothing at all.
 */
module CacheRefinement {
  import opened Prelude
  import opened L = CacheLedger
  import opened T = CacheThreads

  /** Only the pc of thread `t` and the cell of cache `c` change, and only under the locks that guard them. */
  ghost predicate Frame(s: State, s': State, t: ThreadId, c: CacheId) {
    && t in s.threads
    && (s'.threads == s.threads - {t} || (t in s'.threads && s'.threads == s.threads[t := s'.threads[t]]))
    && (s'.cells == s.cells || FrameCell(s, s', t, c))
    && s'.clock == s.clock
    && (s'.queue == s.queue || s.holder == Some(t))
    && (s'.holder == s.holder || (s.holder == None && s'.holder == Some(t))
        || (s.holder == Some(t) && s'.holder == None))
  }

  ghost predicate FrameCell(s: State, s': State, t: ThreadId, c: CacheId)
    requires t in s.threads
  {
    && OnCache(s.threads[t].op, c) && c in s.cells && c in s'.cells
    && s'.cells == s.cells[c := s'.cells[c]]
    && var cell, cell' := s.cells[c], s'.cells[c];
       && (cell'.entries == cell.entries || cell.writer == Some(t))
       && (cell'.writer == cell.writer || (cell.writer == None && cell'.writer == Some(t))
           || (cell.writer == Some(t) && cell'.writer == None))
       && (cell'.readers == cell.readers || cell'.readers == cell.readers + {t} || cell'.readers == cell.readers - {t})
  }

  /** Everything the frame lemma asks about the thread that moved and its cache. */
  ghost predicate MovedWell(s: State, s': State, t: ThreadId, c: CacheId) {
    && Frame(s, s', t, c)
    && (t in s'.threads ==> ThreadOk(s', t))
    && (c in s.cells ==> CellOk(s', c))
    && (s'.holder == Some(t) ==> t in s'.threads && HoldsDeletion(s'.threads[t]))
  }

  lemma FrameQueue(s: State, s': State, t: ThreadId, c: CacheId, u: ThreadId)
    requires u in s.threads && ThreadOk(s, u) && Frame(s, s', t, c) && u != t
    ensures CollectOk(s', s.threads[u]) && (HoldsDeletion(s.threads[u]) <==> s'.holder == Some(u))
  {}

  /**
   What another thread knows of a cache depends only on the cell, and the cell changes only under a
   lock it does not hold.
   */
  lemma FrameLocal(s: State, s': State, t: ThreadId, c: CacheId, u: ThreadId)
    requires u in s.threads && ThreadOk(s, u) && Frame(s, s', t, c) && u != t && OnCache(s.threads[u].op, c)
    ensures var pc := s.threads[u];
            && c in s'.cells
            && (HoldsWriter(pc) <==> s'.cells[c].writer == Some(u)) && (HoldsReader(pc) <==> u in s'.cells[c].readers)
            && LocalOk(s'.cells[c], pc)
  {}

  lemma FrameThread(s: State, s': State, t: ThreadId, c: CacheId, u: ThreadId)
    requires Inv(s) && Frame(s, s', t, c) && u in s.threads && u != t
    ensures ThreadOk(s', u)
  {
    assert ThreadOk(s, u);
    FrameQueue(s, s', t, c, u);
    assert s'.threads[u] == s.threads[u];
    if OnCache(s.threads[u].op, c) {
      FrameLocal(s, s', t, c, u);
    }
  }

  lemma FrameOtherCell(s: State, s': State, t: ThreadId, c: CacheId, d: CacheId)
    requires Inv(s) && Frame(s, s', t, c) && d in s.cells && d != c
    requires s.threads[t].op.OpCollect? || OnCache(s.threads[t].op, c)
    ensures CellOk(s', d) && View(s', d) == View(s, d)
  {}

  lemma FrameThreads(s: State, s': State, t: ThreadId, c: CacheId)
    requires Inv(s) && Frame(s, s', t, c) && (t in s'.threads ==> ThreadOk(s', t))
    ensures forall u :: u in s'.threads ==> ThreadOk(s', u)
  {
    forall u | u in s'.threads ensures ThreadOk(s', u) {
      if u != t { FrameThread(s, s', t, c, u); }
    }
  }

  lemma FrameCells(s: State, s': State, t: ThreadId, c: CacheId)
    requires Inv(s) && Frame(s, s', t, c) && (c in s.cells ==> CellOk(s', c))
    requires s.threads[t].op.OpCollect? || OnCache(s.threads[t].op, c)
    ensures forall d :: d in s'.cells ==> CellOk(s', d)
    ensures Abs(s').caches.Keys == s.cells.Keys
    ensures forall d :: d in s.cells && d != c ==> Abs(s').caches[d] == Abs(s).caches[d]
  {
    assert s'.cells.Keys == s.cells.Keys;
    forall d | d in s.cells && d != c ensures CellOk(s', d) && View(s', d) == View(s, d) {
      FrameOtherCell(s, s', t, c, d);
    }
  }

  lemma FrameHolder(s: State, s': State, t: ThreadId, c: CacheId)
    requires Inv(s) && Frame(s, s', t, c)
    requires s'.holder == Some(t) ==> t in s'.threads && HoldsDeletion(s'.threads[t])
    ensures s'.holder.Some? ==> s'.holder.value in s'.threads && HoldsDeletion(s'.threads[s'.holder.value])
  {}

  /** To keep the invariant it is enough to re-establish it for the thread that moved and for its cache. */
  lemma FrameInv(s: State, s': State, t: ThreadId, c: CacheId)
    requires Inv(s) && MovedWell(s, s', t, c)
    requires s.threads[t].op.OpCollect? || OnCache(s.threads[t].op, c)
    ensures Inv(s')
    ensures Abs(s').caches.Keys == s.cells.Keys
    ensures forall d :: d in s.cells && d != c ==> Abs(s').caches[d] == Abs(s).caches[d]
  {
    FrameThreads(s, s', t, c);
    FrameCells(s, s', t, c);
    FrameHolder(s, s', t, c);
  }

  ghost predicate Refines(s: State, s': State, a: Action) {
    Inv(s') && Enabled(Abs(s), a) && Abs(s') == Apply(Abs(s), a)
  }

  // One lemma per program point: the thread that moved and its cache stay consistent, and the
  // abstract map, queue and records change as one atomic action says.

  ghost predicate Ready(s: State, t: ThreadId, pick: Pick, c: CacheId) {
    && CanStep(s, t, pick) && ThreadOk(s, t)
    && (c in s.cells ==> CellOk(s, c))
    && (s.threads[t].op.OpCollect? || OnCache(s.threads[t].op, c))
    && (s.holder.Some? ==> s.holder.value in s.threads)
  }

  ghost function ActMap(m: Entries, a: Action): Entries {
    match a
    case Store(_, p) => StoreEntries(m, p)
    case Remove(_, p) => RemoveEntries(m, p)
    case _ => m
  }

  ghost function ActQueue(m: Entries, q: map<Object, Time>, a: Action, clock: Time): map<Object, Time> {
    match a
    case Store(_, p) => StoreQueue(m, q, p, clock)
    case Remove(_, p) => RemoveQueue(m, q, p, clock)
    case Free(o, _) => q - {o}
    case _ => q
  }

  ghost predicate Acts(s: State, s': State, t: ThreadId, c: CacheId, a: Action) {
    && MovedWell(s, s', t, c)
    && (c in s.cells ==> View(s', c) == ActMap(View(s, c), a))
    && ViewQueue(s') == ActQueue(if c in s.cells then View(s, c) else map[], ViewQueue(s), a, s.clock)
    && s'.freed == (if a.Free? then s.freed + multiset{a.o} else s.freed)
    && s'.stored == (if a.Store? then s.stored + {a.p} else s.stored)
    && s'.returned == (if a.Store? then s.returned - {a.p} else s.returned)
  }

  lemma EnterNull(s: State, t: ThreadId, pick: Pick, c: CacheId)
    requires Ready(s, t, pick, c) && s.threads[t].at.Enter? && IsNull(s.threads[t].op)
    ensures Acts(s, DoStep(s, t, pick), t, c, ActionOf(s, Step(t, pick)))
  {}

  lemma EnterStore(s: State, t: ThreadId, pick: Pick, c: CacheId)
    requires Ready(s, t, pick, c) && s.threads[t].at.Enter? && s.threads[t].op.OpStore? && !IsNull(s.threads[t].op)
    ensures Acts(s, DoStep(s, t, pick), t, c, ActionOf(s, Step(t, pick)))
  {}

  lemma EnterRemove(s: State, t: ThreadId, pick: Pick, c: CacheId)
    requires Ready(s, t, pick, c) && s.threads[t].at.Enter? && s.threads[t].op.OpRemove? && !IsNull(s.threads[t].op)
    ensures Acts(s, DoStep(s, t, pick), t, c, ActionOf(s, Step(t, pick)))
  {}

  lemma EnterRehash(s: State, t: ThreadId, pick: Pick, c: CacheId)
    requires Ready(s, t, pick, c) && s.threads[t].at.Enter? && s.threads[t].op.OpRehash?
    ensures Acts(s, DoStep(s, t, pick), t, c, ActionOf(s, Step(t, pick)))
  {}

  lemma EnterRead(s: State, t: ThreadId, pick: Pick, c: CacheId)
    requires Ready(s, t, pick, c) && s.threads[t].at.Enter? && Reads(s.threads[t].op)
    ensures Acts(s, DoStep(s, t, pick), t, c, ActionOf(s, Step(t, pick)))
  {}

  lemma EnterCollect(s: State, t: ThreadId, pick: Pick, c: CacheId)
    requires Ready(s, t, pick, c) && s.threads[t].at.Enter? && s.threads[t].op.OpCollect?
    ensures Acts(s, DoStep(s, t, pick), t, c, ActionOf(s, Step(t, pick)))
  {}

  lemma SearchToInsert(s: State, t: ThreadId, pick: Pick, c: CacheId)
    requires Ready(s, t, pick, c) && s.threads[t].at.Search? && s.threads[t].op.OpStore?
    requires s.threads[t].op.p.value.id !in MapOf(s, s.threads[t].op)
    ensures Acts(s, DoStep(s, t, pick), t, c, ActionOf(s, Step(t, pick)))
  {}

  lemma SearchToReplace(s: State, t: ThreadId, pick: Pick, c: CacheId)
    requires Ready(s, t, pick, c) && s.threads[t].at.Search? && s.threads[t].op.OpStore?
    requires var m, p := MapOf(s, s.threads[t].op), s.threads[t].op.p.value; p.id in m && m[p.id] != p
    ensures Acts(s, DoStep(s, t, pick), t, c, ActionOf(s, Step(t, pick)))
  {}

  lemma SearchToRestore(s: State, t: ThreadId, pick: Pick, c: CacheId)
    requires Ready(s, t, pick, c) && s.threads[t].at.Search? && s.threads[t].op.OpStore?
    requires var m, p := MapOf(s, s.threads[t].op), s.threads[t].op.p.value; p.id in m && m[p.id] == p
    ensures Acts(s, DoStep(s, t, pick), t, c, ActionOf(s, Step(t, pick)))
  {}

  lemma SearchToStore(s: State, t: ThreadId, pick: Pick, c: CacheId)
    requires Ready(s, t, pick, c) && s.threads[t].at.Search? && s.threads[t].op.OpStore?
    ensures Acts(s, DoStep(s, t, pick), t, c, ActionOf(s, Step(t, pick)))
  {
    var m, p := MapOf(s, s.threads[t].op), s.threads[t].op.p.value;
    if p.id !in m { SearchToInsert(s, t, pick, c); }
    else if m[p.id] != p { SearchToReplace(s, t, pick, c); }
    else { SearchToRestore(s, t, pick, c); }
  }

  lemma SearchToRemove(s: State, t: ThreadId, pick: Pick, c: CacheId)
    requires Ready(s, t, pick, c) && s.threads[t].at.Search? && s.threads[t].op.OpRemove?
    ensures Acts(s, DoStep(s, t, pick), t, c, ActionOf(s, Step(t, pick)))
  {}

  lemma SearchToFind(s: State, t: ThreadId, pick: Pick, c: CacheId)
    requires Ready(s, t, pick, c) && s.threads[t].at.Search? && s.threads[t].op.OpFind?
    ensures Acts(s, DoStep(s, t, pick), t, c, ActionOf(s, Step(t, pick)))
  {}

  lemma SearchToCount(s: State, t: ThreadId, pick: Pick, c: CacheId)
    requires Ready(s, t, pick, c) && s.threads[t].at.Search? && s.threads[t].op.OpCount?
    ensures Acts(s, DoStep(s, t, pick), t, c, ActionOf(s, Step(t, pick)))
  {}

  lemma InsertMoves(s: State, t: ThreadId, pick: Pick, c: CacheId)
    requires Ready(s, t, pick, c) && s.threads[t].at.Insert?
    ensures Acts(s, DoStep(s, t, pick), t, c, ActionOf(s, Step(t, pick)))
  {}

  lemma EnqueueMoves(s: State, t: ThreadId, pick: Pick, c: CacheId)
    requires Ready(s, t, pick, c) && s.threads[t].at.Enqueue?
    ensures Acts(s, DoStep(s, t, pick), t, c, ActionOf(s, Step(t, pick)))
  {}

  lemma ReplaceMoves(s: State, t: ThreadId, pick: Pick, c: CacheId)
    requires Ready(s, t, pick, c) && s.threads[t].at.Replace?
    ensures Acts(s, DoStep(s, t, pick), t, c, ActionOf(s, Step(t, pick)))
  {}

  lemma EraseMoves(s: State, t: ThreadId, pick: Pick, c: CacheId)
    requires Ready(s, t, pick, c) && s.threads[t].at.Erase?
    ensures Acts(s, DoStep(s, t, pick), t, c, ActionOf(s, Step(t, pick)))
  {}

  lemma BuryMoves(s: State, t: ThreadId, pick: Pick, c: CacheId)
    requires Ready(s, t, pick, c) && s.threads[t].at.Bury?
    ensures Acts(s, DoStep(s, t, pick), t, c, ActionOf(s, Step(t, pick)))
  {}

  lemma AllocateMoves(s: State, t: ThreadId, pick: Pick, c: CacheId)
    requires Ready(s, t, pick, c) && s.threads[t].at.Allocate?
    ensures Acts(s, DoStep(s, t, pick), t, c, ActionOf(s, Step(t, pick)))
  {}

  lemma CopyEnds(s: State, t: ThreadId, pick: Pick, c: CacheId)
    requires Ready(s, t, pick, c) && s.threads[t].at.Copy? && s.threads[t].at.todo == {}
    ensures Acts(s, DoStep(s, t, pick), t, c, ActionOf(s, Step(t, pick)))
  {}

  lemma CopyMoves(s: State, t: ThreadId, pick: Pick, c: CacheId)
    requires Ready(s, t, pick, c) && s.threads[t].at.Copy? && s.threads[t].at.todo != {}
    ensures Acts(s, DoStep(s, t, pick), t, c, ActionOf(s, Step(t, pick)))
  {}

  lemma DropMovesWell(s: State, t: ThreadId, pick: Pick, c: CacheId)
    requires Ready(s, t, pick, c) && s.threads[t].at.Drop?
    ensures MovedWell(s, DoStep(s, t, pick), t, c)
  {}

  lemma DropMoves(s: State, t: ThreadId, pick: Pick, c: CacheId)
    requires Ready(s, t, pick, c) && s.threads[t].at.Drop?
    ensures Acts(s, DoStep(s, t, pick), t, c, ActionOf(s, Step(t, pick)))
  {
    DropMovesWell(s, t, pick, c);
  }

  lemma SwapMoves(s: State, t: ThreadId, pick: Pick, c: CacheId)
    requires Ready(s, t, pick, c) && s.threads[t].at.Swap?
    ensures Acts(s, DoStep(s, t, pick), t, c, ActionOf(s, Step(t, pick)))
  {}

  lemma ScanMoves(s: State, t: ThreadId, pick: Pick, c: CacheId)
    requires Ready(s, t, pick, c) && s.threads[t].at.Scan?
    ensures Acts(s, DoStep(s, t, pick), t, c, ActionOf(s, Step(t, pick)))
  {}

  lemma ForgetMoves(s: State, t: ThreadId, pick: Pick, c: CacheId)
    requires Ready(s, t, pick, c) && s.threads[t].at.Forget?
    ensures Acts(s, DoStep(s, t, pick), t, c, ActionOf(s, Step(t, pick)))
  {}

  lemma AwaitToStore(s: State, t: ThreadId, pick: Pick, c: CacheId)
    requires Ready(s, t, pick, c) && s.threads[t].at.AwaitDeletion?
    ensures Acts(s, DoStep(s, t, pick), t, c, ActionOf(s, Step(t, pick)))
  {}

  lemma AwaitToRemove(s: State, t: ThreadId, pick: Pick, c: CacheId)
    requires Ready(s, t, pick, c) && s.threads[t].at.AwaitDeletionToRemove?
    ensures Acts(s, DoStep(s, t, pick), t, c, ActionOf(s, Step(t, pick)))
  {}

  lemma AwaitToCollect(s: State, t: ThreadId, pick: Pick, c: CacheId)
    requires Ready(s, t, pick, c) && s.threads[t].at.AwaitDeletionToCollect?
    ensures Acts(s, DoStep(s, t, pick), t, c, ActionOf(s, Step(t, pick)))
  {}

  lemma UnlockAfterCollect(s: State, t: ThreadId, pick: Pick, c: CacheId)
    requires Ready(s, t, pick, c) && s.threads[t].at.UnlockDeletion? && s.threads[t].op.OpCollect?
    ensures Acts(s, DoStep(s, t, pick), t, c, ActionOf(s, Step(t, pick)))
  {}

  lemma UnlockDeletionMoves(s: State, t: ThreadId, pick: Pick, c: CacheId)
    requires Ready(s, t, pick, c) && s.threads[t].at.UnlockDeletion? && !s.threads[t].op.OpCollect?
    ensures Acts(s, DoStep(s, t, pick), t, c, ActionOf(s, Step(t, pick)))
  {}

  lemma UnlockReaderWell(s: State, t: ThreadId, pick: Pick, c: CacheId)
    requires Ready(s, t, pick, c) && s.threads[t].at.UnlockCache? && Reads(s.threads[t].op)
    ensures MovedWell(s, DoStep(s, t, pick), t, c)
  {}

  lemma UnlockReader(s: State, t: ThreadId, pick: Pick, c: CacheId)
    requires Ready(s, t, pick, c) && s.threads[t].at.UnlockCache? && Reads(s.threads[t].op)
    ensures Acts(s, DoStep(s, t, pick), t, c, ActionOf(s, Step(t, pick)))
  {
    UnlockReaderWell(s, t, pick, c);
  }

  lemma UnlockWriterWell(s: State, t: ThreadId, pick: Pick, c: CacheId)
    requires Ready(s, t, pick, c) && s.threads[t].at.UnlockCache? && !Reads(s.threads[t].op)
    ensures MovedWell(s, DoStep(s, t, pick), t, c)
  {}

  lemma UnlockWriter(s: State, t: ThreadId, pick: Pick, c: CacheId)
    requires Ready(s, t, pick, c) && s.threads[t].at.UnlockCache? && !Reads(s.threads[t].op)
    ensures Acts(s, DoStep(s, t, pick), t, c, ActionOf(s, Step(t, pick)))
  {
    UnlockWriterWell(s, t, pick, c);
  }

  lemma ReturnMoves(s: State, t: ThreadId, pick: Pick, c: CacheId)
    requires Ready(s, t, pick, c) && s.threads[t].at.Return?
    ensures Acts(s, DoStep(s, t, pick), t, c, ActionOf(s, Step(t, pick)))
  {}

  // ---------------------------------------------------------------- every move

  /** An action of thread `t` on cache `c` (any cache will do for a collection). */
  ghost predicate ActionFits(s: State, c: CacheId, a: Action) {
    match a
    case Skip => true
    case Store(d, _) => d == c && c in s.cells
    case Remove(d, _) => d == c && c in s.cells
    case Free(_, _) => Enabled(Abs(s), a)
    case _ => false
  }

  lemma AbsCaches(s: State, s': State, c: CacheId, m: Entries)
    requires Abs(s').caches.Keys == s.cells.Keys
    requires forall d :: d in s.cells && d != c ==> Abs(s').caches[d] == Abs(s).caches[d]
    requires c in s.cells ==> Abs(s').caches[c] == m
    ensures Abs(s').caches == if c in s.cells then Abs(s).caches[c := m] else Abs(s).caches
    ensures c in s.cells && View(s, c) == m ==> Abs(s').caches == Abs(s).caches
  {}

  lemma Lift(s: State, s': State, t: ThreadId, c: CacheId, a: Action)
    requires Inv(s) && Acts(s, s', t, c, a) && ActionFits(s, c, a)
    requires s.threads[t].op.OpCollect? || OnCache(s.threads[t].op, c)
    ensures Refines(s, s', a)
  {
    FrameInv(s, s', t, c);
    AbsCaches(s, s', c, if c in s.cells then ActMap(View(s, c), a) else map[]);
  }

  ghost function Target(op: Op): CacheId {
    if op.OpCollect? then 0 else op.c
  }

  lemma InvReady(s: State, t: ThreadId, pick: Pick)
    requires Inv(s) && CanStep(s, t, pick)
    ensures Ready(s, t, pick, Target(s.threads[t].op))
    ensures ActionFits(s, Target(s.threads[t].op), ActionOf(s, Step(t, pick)))
  {}

  lemma StepActs(s: State, t: ThreadId, pick: Pick, c: CacheId)
    requires Ready(s, t, pick, c)
    ensures Acts(s, DoStep(s, t, pick), t, c, ActionOf(s, Step(t, pick)))
  {
    var op := s.threads[t].op;
    match s.threads[t].at
    case Enter =>
      if IsNull(op) { EnterNull(s, t, pick, c); } else {
        match op
        case OpStore(_, _) => EnterStore(s, t, pick, c);
        case OpRemove(_, _) => EnterRemove(s, t, pick, c);
        case OpRehash(_) => EnterRehash(s, t, pick, c);
        case OpCollect => EnterCollect(s, t, pick, c);
        case _ => EnterRead(s, t, pick, c);
      }
    case Search =>
      match op {
        case OpStore(_, _) => SearchToStore(s, t, pick, c);
        case OpRemove(_, _) => SearchToRemove(s, t, pick, c);
        case OpFind(_, _) => SearchToFind(s, t, pick, c);
        case _ => SearchToCount(s, t, pick, c);
      }
    case Insert => InsertMoves(s, t, pick, c);
    case Enqueue(_) => EnqueueMoves(s, t, pick, c);
    case Replace(_) => ReplaceMoves(s, t, pick, c);
    case Erase(_) => EraseMoves(s, t, pick, c);
    case Bury(_) => BuryMoves(s, t, pick, c);
    case Allocate => AllocateMoves(s, t, pick, c);
    case Copy(_, todo) => if todo == {} { CopyEnds(s, t, pick, c); } else { CopyMoves(s, t, pick, c); }
    case Drop(_) => DropMoves(s, t, pick, c);
    case Swap(_) => SwapMoves(s, t, pick, c);
    case Scan(_) => ScanMoves(s, t, pick, c);
    case Forget(_, _) => ForgetMoves(s, t, pick, c);
    case AwaitDeletion(_) => AwaitToStore(s, t, pick, c);
    case AwaitDeletionToRemove => AwaitToRemove(s, t, pick, c);
    case AwaitDeletionToCollect(_) => AwaitToCollect(s, t, pick, c);
    case UnlockDeletion(_) =>
      if op.OpCollect? { UnlockAfterCollect(s, t, pick, c); } else { UnlockDeletionMoves(s, t, pick, c); }
    case UnlockCache(_) => if Reads(op) { UnlockReader(s, t, pick, c); } else { UnlockWriter(s, t, pick, c); }
    case Return(_) => ReturnMoves(s, t, pick, c);
  }

  lemma StepRefines(s: State, t: ThreadId, pick: Pick)
    requires Inv(s) && CanStep(s, t, pick)
    ensures Refines(s, DoStep(s, t, pick), ActionOf(s, Step(t, pick)))
  {
    var c := Target(s.threads[t].op);
    InvReady(s, t, pick);
    StepActs(s, t, pick, c);
    Lift(s, DoStep(s, t, pick), t, c, ActionOf(s, Step(t, pick)));
  }

  /** A move that leaves the cells alone and, at most, adds threads that have not started. */
  ghost predicate OnlyCalls(s: State, s': State) {
    && s'.cells == s.cells && s'.queue == s.queue && s'.holder == s.holder && s.clock <= s'.clock
    && s.threads.Keys <= s'.threads.Keys
    && (forall u :: u in s.threads ==> s'.threads[u] == s.threads[u])
    && (forall u :: u in s'.threads && u !in s.threads ==>
          var pc := s'.threads[u]; pc.at.Enter? && !pc.op.OpDestroy? && (pc.op.OpCollect? || pc.op.c in s.cells))
  }

  lemma CallIsIdle(s: State, s': State, u: ThreadId)
    requires Inv(s) && OnlyCalls(s, s') && u in s'.threads && u !in s.threads
    ensures ThreadOk(s', u)
  {
    var op := s'.threads[u].op;
    assert op.OpCollect? || CellOk(s, op.c);
  }

  lemma CallsKeepThreads(s: State, s': State)
    requires Inv(s) && OnlyCalls(s, s')
    ensures forall u :: u in s'.threads ==> ThreadOk(s', u)
  {
    forall u | u in s'.threads ensures ThreadOk(s', u) {
      if u in s.threads { assert ThreadOk(s, u); } else { CallIsIdle(s, s', u); }
    }
  }

  lemma CallsKeepCells(s: State, s': State)
    requires Inv(s) && OnlyCalls(s, s')
    ensures forall c :: c in s'.cells ==> CellOk(s', c) && View(s', c) == View(s, c)
    ensures Abs(s').caches == Abs(s).caches && ViewQueue(s') == ViewQueue(s)
  {
    forall c | c in s'.cells ensures CellOk(s', c) && View(s', c) == View(s, c) { assert CellOk(s, c); }
  }

  lemma InvokeRefines(s: State, t: ThreadId, op: Op)
    requires Inv(s) && Can(s, Invoke(t, op))
    ensures Refines(s, Do(s, Invoke(t, op)), Skip)
  {
    var s' := Do(s, Invoke(t, op));
    CallsKeepThreads(s, s');
    CallsKeepCells(s, s');
  }

  lemma WaitRefines(s: State, n: nat)
    requires Inv(s)
    ensures Refines(s, Do(s, Wait(n)), Tick(n))
  {
    var s' := Do(s, Wait(n));
    CallsKeepThreads(s, s');
    CallsKeepCells(s, s');
  }

  lemma DestroyKeepsThread(s: State, t: ThreadId, c: CacheId, u: ThreadId)
    requires Inv(s) && Can(s, DestroyCache(t, c)) && u in s.threads
    ensures ThreadOk(Do(s, DestroyCache(t, c)), u)
  {
    assert ThreadOk(s, u) && !OnCache(s.threads[u].op, c);
  }

  lemma DestroyKeepsCell(s: State, t: ThreadId, c: CacheId, d: CacheId)
    requires Inv(s) && Can(s, DestroyCache(t, c)) && d in s.cells && d != c
    ensures CellOk(Do(s, DestroyCache(t, c)), d) && View(Do(s, DestroyCache(t, c)), d) == View(s, d)
  {
    assert CellOk(s, d);
  }

  lemma DestroyRefines(s: State, t: ThreadId, c: CacheId)
    requires Inv(s) && Can(s, DestroyCache(t, c))
    ensures Refines(s, Do(s, DestroyCache(t, c)), Destroy(c))
  {
    var s' := Do(s, DestroyCache(t, c));
    forall u | u in s'.threads ensures ThreadOk(s', u) { DestroyKeepsThread(s, t, c, u); }
    forall d | d in s'.cells ensures CellOk(s', d) && View(s', d) == View(s, d) { DestroyKeepsCell(s, t, c, d); }
    assert View(s, c) == Contents(s.cells[c]) by { assert CellOk(s, c); }
    assert Abs(s').caches == Abs(s).caches - {c};
  }

  /** Every move of the threaded system keeps the invariant and is one atomic action of the ledger. */
  lemma MoveRefines(s: State, mv: Move)
    requires Inv(s) && Can(s, mv)
    ensures Inv(Do(s, mv))
    ensures Enabled(Abs(s), ActionOf(s, mv)) && Abs(Do(s, mv)) == Apply(Abs(s), ActionOf(s, mv))
  {
    match mv
    case Invoke(t, op) => InvokeRefines(s, t, op);
    case Step(t, pick) => StepRefines(s, t, pick);
    case Wait(n) => WaitRefines(s, n);
    case DestroyCache(t, c) => DestroyRefines(s, t, c);
  }
}
