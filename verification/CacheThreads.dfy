/**
 Any number of threads running the cache operations, one shared-memory access at a time.

 Every lock acquisition, map lookup, map update, queue update, copy of one element during
 rehash, deletion of the old map, and release is a step of its own, and the steps of different
 threads interleave freely. Deleting the map leaves the cache pointing at nothing (`None`) until
 the pointer is swapped, and a step that would follow a dangling pointer is not enabled.
 */
module CacheThreads {
  import opened Prelude
  import opened L = CacheLedger

  type ThreadId = nat

  datatype Op =
    | OpStore(c: CacheId, p: Option<Object>)
    | OpRemove(c: CacheId, p: Option<Object>)
    | OpFind(c: CacheId, id: Id)
    | OpCount(c: CacheId)
    | OpRehash(c: CacheId)
    | OpCollect
    | OpDestroy(c: CacheId)

  datatype Result = Void | Found(found: Option<Object>) | Size(size: nat)

  /** Where a thread is inside its operation, with the locals still needed. */
  datatype Label =
    | Enter                                            // before the first mutex
    | Search                                           // find or size on the map
    | Insert                                           // store: write the vacant slot
    | AwaitDeletion(prev: Object)                      // store: before deletion_mutex
    | Enqueue(prev: Object)                            // store: queue the old pointer
    | Replace(prev: Object)                            // store: overwrite the slot
    | AwaitDeletionToRemove                            // remove: before deletion_mutex
    | Erase(prev: Object)                              // remove: erase the slot found
    | Bury(prev: Object)                               // remove: queue the pointer given
    | Allocate                                         // rehash: new map
    | Copy(copy: Entries, todo: set<Id>)               // rehash: the copy loop
    | Drop(copy: Entries)                              // rehash: delete the old map
    | Swap(copy: Entries)                              // rehash: install the new map
    | AwaitDeletionToCollect(now: Time)                // collect: clock read, before deletion_mutex
    | Scan(now: Time)                                  // collect: look for an expired entry
    | Forget(o: Object, now: Time)                     // collect: object deleted, entry to erase
    | UnlockDeletion(res: Result)
    | UnlockCache(res: Result)
    | Return(res: Result)

  /** `call` is the position of this operation's Call in the history. */
  datatype Pc = Pc(call: nat, op: Op, at: Label)

  datatype Event = Call(t: ThreadId, op: Op) | Ret(call: nat, res: Result)

  /** One linearized operation; `at` is the length of the history when it took effect. */
  datatype LogEntry = LogEntry(call: nat, op: Op, res: Result, at: nat)

  /** A cache object: its map pointer and its shared mutex. */
  datatype Cell = Cell(entries: Option<Entries>, writer: Option<ThreadId>, readers: set<ThreadId>)

  datatype State = State(
    cells: map<CacheId, Cell>,
    holder: Option<ThreadId>,      // of deletion_mutex
    queue: map<Object, Time>,
    freed: multiset<Object>,
    returned: set<Object>,
    stored: set<Object>,
    clock: Time,
    threads: map<ThreadId, Pc>,    // the operations in progress
    hist: seq<Event>,
    log: seq<LogEntry>)

  /** The choice an iteration order leaves open. */
  datatype Pick = Any | Slot(id: Id) | Victim(o: Object)

  datatype Move =
    | Invoke(t: ThreadId, op: Op)
    | Step(t: ThreadId, pick: Pick)
    | Wait(seconds: nat)
    | DestroyCache(t: ThreadId, c: CacheId)

  function Init(cs: set<CacheId>): State {
    State(map c | c in cs :: Cell(Some(map[]), None, {}), None, map[], multiset{}, {}, {}, 0, map[], [], [])
  }

  predicate OnCache(op: Op, c: CacheId) {
    !op.OpCollect? && op.c == c
  }

  predicate Writes(op: Op) {
    op.OpStore? || op.OpRemove? || op.OpRehash?
  }

  predicate Reads(op: Op) {
    op.OpFind? || op.OpCount?
  }

  /** store and remove of a null pointer return before taking any lock. */
  predicate IsNull(op: Op) {
    (op.OpStore? || op.OpRemove?) && op.p.None?
  }

  /** The labels each operation passes through. */
  predicate LabelFits(pc: Pc) {
    match pc.op
    case OpStore(_, p) =>
      if p.None? then pc.at.Enter? || pc.at == Return(Void)
      else pc.at.Enter? || pc.at.Search? || pc.at.Insert? || pc.at.AwaitDeletion? || pc.at.Enqueue? || pc.at.Replace?
           || pc.at == UnlockDeletion(Void) || pc.at == UnlockCache(Void) || pc.at == Return(Void)
    case OpRemove(_, p) =>
      if p.None? then pc.at.Enter? || pc.at == Return(Void)
      else pc.at.Enter? || pc.at.AwaitDeletionToRemove? || pc.at.Search? || pc.at.Erase? || pc.at.Bury?
           || pc.at == UnlockDeletion(Void) || pc.at == UnlockCache(Void) || pc.at == Return(Void)
    case OpFind(_, _) => pc.at.Enter? || pc.at.Search? || pc.at.UnlockCache? || pc.at.Return?
    case OpCount(_) => pc.at.Enter? || pc.at.Search? || pc.at.UnlockCache? || pc.at.Return?
    case OpRehash(_) =>
      pc.at.Enter? || pc.at.Allocate? || pc.at.Copy? || pc.at.Drop? || pc.at.Swap?
      || pc.at == UnlockCache(Void) || pc.at == Return(Void)
    case OpCollect =>
      pc.at.Enter? || pc.at.AwaitDeletionToCollect? || pc.at.Scan? || pc.at.Forget?
      || pc.at == UnlockDeletion(Void) || pc.at == Return(Void)
    case OpDestroy(_) => false
  }

  // ---------------------------------------------------------------- enabledness

  predicate CanEnter(s: State, op: Op) {
    if IsNull(op) || op.OpCollect? then true
    else if op.c !in s.cells then false
    else if Writes(op) then s.cells[op.c].writer.None? && s.cells[op.c].readers == {}
    else s.cells[op.c].writer.None?
  }

  /** Whether the next statement of thread `t` can execute; a map access needs a map. */
  predicate CanStep(s: State, t: ThreadId, pick: Pick) {
    && t in s.threads
    && LabelFits(s.threads[t])
    && var pc := s.threads[t];
       match pc.at
       case Enter => CanEnter(s, pc.op)
       case Search => HasMap(s, pc.op)
       case Insert => HasMap(s, pc.op)
       case AwaitDeletion(_) => s.holder.None?
       case Enqueue(_) => true
       case Replace(_) => HasMap(s, pc.op)
       case AwaitDeletionToRemove => s.holder.None?
       case Erase(_) => HasMap(s, pc.op)
       case Bury(_) => true
       case Allocate => HasMap(s, pc.op)
       case Copy(_, todo) => HasMap(s, pc.op)
           && (todo == {} || (pick.Slot? && pick.id in todo && pick.id in MapOf(s, pc.op)))
       case Drop(_) => HasMap(s, pc.op)
       case Swap(_) => !pc.op.OpCollect? && pc.op.c in s.cells
       case AwaitDeletionToCollect(_) => s.holder.None?
       case Scan(now) =>
         if pick.Victim? then Expired(s.queue, pick.o, now)
         else forall o :: o in s.queue ==> !Expired(s.queue, o, now)
       case Forget(_, _) => true
       case UnlockDeletion(_) => true
       case UnlockCache(_) => !pc.op.OpCollect? && pc.op.c in s.cells
       case Return(_) => true
  }

  predicate HasMap(s: State, op: Op) {
    !op.OpCollect? && op.c in s.cells && s.cells[op.c].entries.Some?
  }

  function MapOf(s: State, op: Op): Entries
    requires HasMap(s, op)
  {
    s.cells[op.c].entries.value
  }

  predicate Can(s: State, mv: Move) {
    match mv
    case Invoke(t, op) => t !in s.threads && !op.OpDestroy? && (op.OpCollect? || op.c in s.cells)
    case Step(t, pick) => CanStep(s, t, pick)
    case Wait(_) => true
    case DestroyCache(t, c) =>
      && t !in s.threads && c in s.cells
      && (forall u :: u in s.threads ==> !OnCache(s.threads[u].op, c))
  }

  // ---------------------------------------------------------------- steps

  function Goto(s: State, t: ThreadId, l: Label): State
    requires t in s.threads
  {
    s.(threads := s.threads[t := s.threads[t].(at := l)])
  }

  function PutMap(s: State, c: CacheId, m: Option<Entries>): State
    requires c in s.cells
  {
    s.(cells := s.cells[c := s.cells[c].(entries := m)])
  }

  /** Record that the operation of thread `t` takes effect now, with this result. */
  function Effect(s: State, t: ThreadId, res: Result): State
    requires t in s.threads
  {
    s.(log := s.log + [LogEntry(s.threads[t].call, s.threads[t].op, res, |s.hist|)])
  }

  /** The bookkeeping of a store that takes effect: who was ever stored, and who is no longer with the allocator. */
  function Adopt(s: State, p: Object): State {
    s.(stored := s.stored + {p}, returned := s.returned - {p})
  }

  function DoEnter(s: State, t: ThreadId): State
    requires t in s.threads && CanEnter(s, s.threads[t].op) && !s.threads[t].op.OpDestroy?
  {
    var op := s.threads[t].op;
    if IsNull(op) then Goto(Effect(s, t, Void), t, Return(Void))
    else match op
      case OpCollect => Goto(s, t, AwaitDeletionToCollect(s.clock))
      case OpFind(c, _) => Goto(s.(cells := s.cells[c := s.cells[c].(readers := s.cells[c].readers + {t})]), t, Search)
      case OpCount(c) => Goto(s.(cells := s.cells[c := s.cells[c].(readers := s.cells[c].readers + {t})]), t, Search)
      case OpStore(c, _) => Goto(s.(cells := s.cells[c := s.cells[c].(writer := Some(t))]), t, Search)
      case OpRemove(c, _) => Goto(s.(cells := s.cells[c := s.cells[c].(writer := Some(t))]), t, AwaitDeletionToRemove)
      case OpRehash(c) => Goto(s.(cells := s.cells[c := s.cells[c].(writer := Some(t))]), t, Allocate)
  }

  /** A lookup by id. */
  function Lookup(m: Entries, id: Id): Option<Object> {
    if id in m then Some(m[id]) else None
  }

  function DoSearch(s: State, t: ThreadId): State
    requires t in s.threads && HasMap(s, s.threads[t].op) && !IsNull(s.threads[t].op)
    requires var op := s.threads[t].op; op.OpStore? || op.OpRemove? || op.OpFind? || op.OpCount?
  {
    var op := s.threads[t].op;
    var m := MapOf(s, op);
    match op
    case OpStore(_, p) =>
      if p.value.id !in m then Goto(s, t, Insert)
      else if p.value != m[p.value.id] then Goto(s, t, AwaitDeletion(m[p.value.id]))
      else Goto(Adopt(Effect(s, t, Void), p.value), t, UnlockCache(Void))
    case OpRemove(_, p) =>
      if p.value.id in m then Goto(s, t, Erase(m[p.value.id]))
      else Goto(Effect(s, t, Void), t, UnlockDeletion(Void))
    case OpFind(_, id) =>
      var r := Found(Lookup(m, id));
      Goto(Effect(s, t, r), t, UnlockCache(r))
    case OpCount(_) =>
      Goto(Effect(s, t, Size(|m|)), t, UnlockCache(Size(|m|)))
  }

  /** The map operations of store and remove, on a non-null pointer. */
  function DoUpdate(s: State, t: ThreadId): State
    requires t in s.threads && !IsNull(s.threads[t].op) && (s.threads[t].op.OpStore? || s.threads[t].op.OpRemove?)
    requires var l := s.threads[t].at; l.Insert? || l.Enqueue? || l.Replace? || l.Erase? || l.Bury?
    requires !s.threads[t].at.Enqueue? && !s.threads[t].at.Bury? ==> HasMap(s, s.threads[t].op)
  {
    var pc := s.threads[t];
    var p := pc.op.p.value;
    match pc.at
    case Insert =>
      var s1 := PutMap(s, pc.op.c, Some(MapOf(s, pc.op)[p.id := p]));
      Goto(Adopt(Effect(s1, t, Void), p), t, UnlockCache(Void))
    case Enqueue(prev) =>
      var s1 := s.(queue := s.queue[prev := s.clock]);
      Goto(Adopt(Effect(s1, t, Void), p), t, Replace(prev))
    case Replace(_) =>
      Goto(PutMap(s, pc.op.c, Some(MapOf(s, pc.op)[p.id := p])), t, UnlockDeletion(Void))
    case Erase(prev) =>
      Goto(PutMap(s, pc.op.c, Some(MapOf(s, pc.op) - {p.id})), t, Bury(prev))
    case Bury(_) =>
      Goto(Effect(s.(queue := s.queue[p := s.clock]), t, Void), t, UnlockDeletion(Void))
  }

  /** rehash: `n->insert(*t)` leaves an existing key alone. */
  function InsertIfAbsent(m: Entries, k: Id, o: Object): Entries {
    if k in m then m else m[k := o]
  }

  function DoRehash(s: State, t: ThreadId, pick: Pick): State
    requires CanStep(s, t, pick) && s.threads[t].op.OpRehash?
    requires var l := s.threads[t].at; l.Allocate? || l.Copy? || l.Drop? || l.Swap?
  {
    var pc := s.threads[t];
    match pc.at
    case Allocate => Goto(s, t, Copy(map[], MapOf(s, pc.op).Keys))
    case Copy(copy, todo) =>
      if todo == {} then Goto(s, t, Drop(copy))
      else Goto(s, t, Copy(InsertIfAbsent(copy, pick.id, MapOf(s, pc.op)[pick.id]), todo - {pick.id}))
    case Drop(copy) => Goto(PutMap(s, pc.op.c, None), t, Swap(copy))
    case Swap(copy) => Goto(PutMap(Effect(s, t, Void), pc.op.c, Some(copy)), t, UnlockCache(Void))
  }

  function DoCollect(s: State, t: ThreadId, pick: Pick): State
    requires CanStep(s, t, pick)
    requires s.threads[t].at.Scan? || s.threads[t].at.Forget?
  {
    match s.threads[t].at
    case Scan(now) =>
      if pick.Victim? then Goto(s.(freed := s.freed + multiset{pick.o}), t, Forget(pick.o, now))
      else Goto(Effect(s, t, Void), t, UnlockDeletion(Void))
    case Forget(o, now) => Goto(s.(queue := s.queue - {o}), t, Scan(now))
  }

  function DoLocks(s: State, t: ThreadId): State
    requires t in s.threads
    requires var l := s.threads[t].at;
             l.AwaitDeletion? || l.AwaitDeletionToRemove? || l.AwaitDeletionToCollect? || l.UnlockDeletion?
             || l.UnlockCache? || l.Return?
    requires s.threads[t].at.UnlockCache? ==> !s.threads[t].op.OpCollect? && s.threads[t].op.c in s.cells
  {
    var pc := s.threads[t];
    match pc.at
    case AwaitDeletion(prev) => Goto(s.(holder := Some(t)), t, Enqueue(prev))
    case AwaitDeletionToRemove => Goto(s.(holder := Some(t)), t, Search)
    case AwaitDeletionToCollect(now) => Goto(s.(holder := Some(t)), t, Scan(now))
    case UnlockDeletion(res) => Goto(s.(holder := None), t, if pc.op.OpCollect? then Return(res) else UnlockCache(res))
    case UnlockCache(res) =>
      var cell := s.cells[pc.op.c];
      var cell' := if Reads(pc.op) then cell.(readers := cell.readers - {t}) else cell.(writer := None);
      Goto(s.(cells := s.cells[pc.op.c := cell']), t, Return(res))
    case Return(res) => s.(threads := s.threads - {t}, hist := s.hist + [Ret(pc.call, res)])
  }

  function DoStep(s: State, t: ThreadId, pick: Pick): State
    requires CanStep(s, t, pick)
  {
    match s.threads[t].at
    case Enter => DoEnter(s, t)
    case Search => DoSearch(s, t)
    case Insert => DoUpdate(s, t)
    case Enqueue(_) => DoUpdate(s, t)
    case Replace(_) => DoUpdate(s, t)
    case Erase(_) => DoUpdate(s, t)
    case Bury(_) => DoUpdate(s, t)
    case Allocate => DoRehash(s, t, pick)
    case Copy(_, _) => DoRehash(s, t, pick)
    case Drop(_) => DoRehash(s, t, pick)
    case Swap(_) => DoRehash(s, t, pick)
    case Scan(_) => DoCollect(s, t, pick)
    case Forget(_, _) => DoCollect(s, t, pick)
    case _ => DoLocks(s, t)
  }

  // ---------------------------------------------------------------- invariant

  predicate HoldsWriter(pc: Pc) {
    Writes(pc.op) && !pc.at.Enter? && !pc.at.Return?
  }

  predicate HoldsReader(pc: Pc) {
    Reads(pc.op) && !pc.at.Enter? && !pc.at.Return?
  }

  predicate HoldsDeletion(pc: Pc) {
    || pc.at.Enqueue? || pc.at.Replace? || pc.at.Erase? || pc.at.Bury? || pc.at.Scan? || pc.at.Forget?
    || pc.at.UnlockDeletion? || (pc.op.OpRemove? && pc.at.Search?)
  }

  /** What a writer knows about the map it has locked. */
  predicate LocalOk(cell: Cell, pc: Pc) {
    && (HoldsWriter(pc) && !pc.at.Swap? ==>
          && cell.entries.Some?
          && var m := cell.entries.value;
             match pc.at
             case Insert => pc.op.OpStore? && pc.op.p.Some? && pc.op.p.value.id !in m
             case AwaitDeletion(prev) => SlotHolds(m, pc.op, prev)
             case Enqueue(prev) => SlotHolds(m, pc.op, prev)
             case Replace(prev) => SlotHolds(m, pc.op, prev)
             case Erase(prev) => pc.op.OpRemove? && pc.op.p.Some? && Lookup(m, pc.op.p.value.id) == Some(prev)
             case Bury(_) => pc.op.OpRemove? && pc.op.p.Some? && pc.op.p.value.id !in m
             case Copy(copy, todo) => todo <= m.Keys && copy == m - todo
             case Drop(copy) => copy == m
             case _ => true)
    && (HoldsWriter(pc) && pc.at.Swap? ==> cell.entries.None?)
  }

  predicate SlotHolds(m: Entries, op: Op, prev: Object) {
    op.OpStore? && op.p.Some? && op.p.value.id in m && m[op.p.value.id] == prev && prev != op.p.value
  }

  predicate CollectOk(s: State, pc: Pc) {
    match pc.at
    case AwaitDeletionToCollect(now) => now <= s.clock
    case Scan(now) => now <= s.clock
    case Forget(o, now) => now <= s.clock && Expired(s.queue, o, now)
    case _ => true
  }

  predicate ThreadOk(s: State, t: ThreadId)
    requires t in s.threads
  {
    var pc := s.threads[t];
    && LabelFits(pc)
    && CollectOk(s, pc)
    && (HoldsDeletion(pc) <==> s.holder == Some(t))
    && (!pc.op.OpCollect? ==>
          && pc.op.c in s.cells
          && (HoldsWriter(pc) <==> s.cells[pc.op.c].writer == Some(t))
          && (HoldsReader(pc) <==> t in s.cells[pc.op.c].readers)
          && LocalOk(s.cells[pc.op.c], pc))
  }

  predicate CellOk(s: State, c: CacheId)
    requires c in s.cells
  {
    var cell := s.cells[c];
    && (cell.writer.Some? ==>
          && cell.writer.value in s.threads
          && OnCache(s.threads[cell.writer.value].op, c) && HoldsWriter(s.threads[cell.writer.value])
          && cell.readers == {})
    && (cell.writer.None? ==> cell.entries.Some?)
    && (forall u :: u in cell.readers ==> u in s.threads && OnCache(s.threads[u].op, c) && HoldsReader(s.threads[u]))
  }

  ghost predicate Inv(s: State) {
    && (forall t :: t in s.threads ==> ThreadOk(s, t))
    && (forall c :: c in s.cells ==> CellOk(s, c))
    && (s.holder.Some? ==> s.holder.value in s.threads && HoldsDeletion(s.threads[s.holder.value]))
  }

  function Do(s: State, mv: Move): State
    requires Can(s, mv)
  {
    match mv
    case Invoke(t, op) => s.(threads := s.threads[t := Pc(|s.hist|, op, Enter)], hist := s.hist + [Call(t, op)])
    case Step(t, pick) => DoStep(s, t, pick)
    case Wait(n) => s.(clock := s.clock + n)
    case DestroyCache(t, c) =>
      s.(cells := s.cells - {c},
         returned := s.returned + Contents(s.cells[c]).Values,
         hist := s.hist + [Call(t, OpDestroy(c)), Ret(|s.hist|, Void)],
         log := s.log + [LogEntry(|s.hist|, OpDestroy(c), Void, |s.hist| + 1)])
  }

  lemma InitInv(cs: set<CacheId>)
    ensures Inv(Init(cs))
  {}

  // ---------------------------------------------------------------- abstraction

  function Contents(cell: Cell): Entries {
    if cell.entries.Some? then cell.entries.value else map[]
  }

  /**
   What the map of a cache stands for. Three states inside a writer's critical section differ
   from the memory: the queued pointer is already replaced, the erased pointer is still present
   until it is queued, and the new map stands for the deleted one until it is swapped in.
   */
  function ViewBy(cell: Cell, pc: Pc): Entries {
    match pc.at
    case Swap(copy) => copy
    case Replace(_) =>
      if pc.op.OpStore? && pc.op.p.Some? then Contents(cell)[pc.op.p.value.id := pc.op.p.value] else map[]
    case Bury(prev) => if pc.op.OpRemove? && pc.op.p.Some? then Contents(cell)[pc.op.p.value.id := prev] else map[]
    case _ => Contents(cell)
  }

  function View(s: State, c: CacheId): Entries
    requires c in s.cells
  {
    var cell := s.cells[c];
    if cell.writer.Some? && cell.writer.value in s.threads then ViewBy(cell, s.threads[cell.writer.value])
    else Contents(cell)
  }

  /** A freed object counts as unqueued although its entry is erased one step later. */
  function ViewQueue(s: State): map<Object, Time> {
    if s.holder.Some? && s.holder.value in s.threads && s.threads[s.holder.value].at.Forget?
    then s.queue - {s.threads[s.holder.value].at.o}
    else s.queue
  }

  ghost function Abs(s: State): Ledger {
    Ledger(map c | c in s.cells :: View(s, c), ViewQueue(s), s.freed, s.returned, s.stored, s.clock)
  }

  /** The atomic action a move performs. */
  function ActionOf(s: State, mv: Move): Action {
    match mv
    case Invoke(_, _) => Skip
    case Wait(n) => Tick(n)
    case DestroyCache(_, c) => Destroy(c)
    case Step(t, pick) =>
      if t !in s.threads then Skip
      else
        var pc := s.threads[t];
        match pc.op
        case OpStore(c, Some(p)) =>
          if pc.at.Insert? || pc.at.Enqueue? then Store(c, p)
          else if pc.at.Search? && HasMap(s, pc.op) && Lookup(MapOf(s, pc.op), p.id) == Some(p) then Store(c, p)
          else Skip
        case OpRemove(c, Some(p)) =>
          if pc.at.Bury? then Remove(c, p)
          else if pc.at.Search? && HasMap(s, pc.op) && p.id !in MapOf(s, pc.op) then Remove(c, p)
          else Skip
        case OpCollect => if pc.at.Scan? && pick.Victim? then Free(pick.o, pc.at.now) else Skip
        case _ => Skip
  }
}
