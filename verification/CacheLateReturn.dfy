/**
 The grace period counted from the return of find and not from its lookup: what the delay between
 the two leaves of the 60 seconds is safe, and not a second more. For every delay there is an
 execution in which all callers obey the contract and the object handed over is freed that soon.
 */
module CacheLateReturn {
  import opened Prelude
  import opened L = CacheLedger
  import opened T = CacheThreads
  import opened G = CacheGuarantees

  /** One cache, what holds its locks and the queue, the time, and where each thread is. */
  datatype World = World(
    entries: Entries,
    writer: Option<ThreadId>,
    readers: set<ThreadId>,
    holder: Option<ThreadId>,
    queue: map<Object, Time>,
    freed: multiset<Object>,
    clock: Time,
    pcs: map<ThreadId, (Op, Label)>)

  ghost predicate Shows(s: State, w: World) {
    && s.cells.Keys == {0} && s.cells[0] == Cell(Some(w.entries), w.writer, w.readers)
    && s.holder == w.holder && s.queue == w.queue && s.freed == w.freed && s.clock == w.clock
    && s.threads.Keys == w.pcs.Keys
    && (forall t :: t in w.pcs ==> s.threads[t].op == w.pcs[t].0 && s.threads[t].at == w.pcs[t].1)
  }

  /** The move is possible, its caller obeys, and it leads to `w'`. */
  ghost predicate Fits(s: State, mv: Move, w': World) {
    Can(s, mv) && Obeyed(s, ActionOf(s, mv)) && Shows(Do(s, mv), w')
  }

  ghost predicate Obeyed(s: State, a: Action) {
    a.Store? || a.Remove? ==> Contract(Abs(s), a)
  }

  ghost predicate LeadsTo(w: World, mv: Move, w': World) {
    forall s :: Shows(s, w) ==> Fits(s, mv, w')
  }

  ghost function To(w: World, t: ThreadId, at: Label): World
    requires t in w.pcs
  {
    w.(pcs := w.pcs[t := (w.pcs[t].0, at)])
  }

  ghost predicate Stands(w: World, t: ThreadId, op: Op, at: Label) {
    t in w.pcs && w.pcs[t] == (op, at)
  }

  // ---------------------------------------------------------------- the moves it takes

  lemma Calls(w: World, t: ThreadId, op: Op)
    requires t !in w.pcs && !op.OpDestroy? && (op.OpCollect? || op.c == 0)
    ensures LeadsTo(w, Invoke(t, op), w.(pcs := w.pcs[t := (op, Enter)]))
  {
    forall s | Shows(s, w) ensures Fits(s, Invoke(t, op), w.(pcs := w.pcs[t := (op, Enter)])) {}
  }

  lemma Waits(w: World, n: nat)
    ensures LeadsTo(w, Wait(n), w.(clock := w.clock + n))
  {
    forall s | Shows(s, w) ensures Fits(s, Wait(n), w.(clock := w.clock + n)) {}
  }

  lemma StoreEntersFrom(s: State, w: World, t: ThreadId, p: Object)
    requires Shows(s, w)
    requires Stands(w, t, OpStore(0, Some(p)), Enter) && w.writer == None && w.readers == {}
    ensures Fits(s, Step(t, Any), To(w, t, Search).(writer := Some(t)))
  {}

  lemma StoreEnters(w: World, t: ThreadId, p: Object)
    requires Stands(w, t, OpStore(0, Some(p)), Enter) && w.writer == None && w.readers == {}
    ensures LeadsTo(w, Step(t, Any), To(w, t, Search).(writer := Some(t)))
  {
    forall s | Shows(s, w) ensures Fits(s, Step(t, Any), To(w, t, Search).(writer := Some(t))) {
      StoreEntersFrom(s, w, t, p);
    }
  }

  lemma StoreMissesFrom(s: State, w: World, t: ThreadId, p: Object)
    requires Shows(s, w)
    requires Stands(w, t, OpStore(0, Some(p)), Search) && p.id !in w.entries
    ensures Fits(s, Step(t, Any), To(w, t, Insert))
  {}

  lemma StoreMisses(w: World, t: ThreadId, p: Object)
    requires Stands(w, t, OpStore(0, Some(p)), Search) && p.id !in w.entries
    ensures LeadsTo(w, Step(t, Any), To(w, t, Insert))
  {
    forall s | Shows(s, w) ensures Fits(s, Step(t, Any), To(w, t, Insert)) {
      StoreMissesFrom(s, w, t, p);
    }
  }

  lemma InsertObeys(s: State, w: World, t: ThreadId, p: Object)
    requires Shows(s, w)
    requires Stands(w, t, OpStore(0, Some(p)), Insert)
    requires w.entries == map[] && w.queue == map[] && w.freed == multiset{} && w.writer == Some(t)
    ensures ActionOf(s, Step(t, Any)) == Store(0, p) && Contract(Abs(s), Store(0, p))
  {}

  lemma StoreInserts(w: World, t: ThreadId, p: Object)
    requires Stands(w, t, OpStore(0, Some(p)), Insert)
    requires w.entries == map[] && w.queue == map[] && w.freed == multiset{} && w.writer == Some(t)
    ensures LeadsTo(w, Step(t, Any), To(w, t, UnlockCache(Void)).(entries := map[p.id := p]))
  {
    forall s | Shows(s, w) ensures Fits(s, Step(t, Any), To(w, t, UnlockCache(Void)).(entries := map[p.id := p])) {
      InsertObeys(s, w, t, p);
    }
  }

  lemma StoreUnlocksFrom(s: State, w: World, t: ThreadId, p: Object)
    requires Shows(s, w)
    requires Stands(w, t, OpStore(0, Some(p)), UnlockCache(Void))
    ensures Fits(s, Step(t, Any), To(w, t, Return(Void)).(writer := None))
  {}

  lemma StoreUnlocks(w: World, t: ThreadId, p: Object)
    requires Stands(w, t, OpStore(0, Some(p)), UnlockCache(Void))
    ensures LeadsTo(w, Step(t, Any), To(w, t, Return(Void)).(writer := None))
  {
    forall s | Shows(s, w) ensures Fits(s, Step(t, Any), To(w, t, Return(Void)).(writer := None)) {
      StoreUnlocksFrom(s, w, t, p);
    }
  }

  lemma FindEntersFrom(s: State, w: World, t: ThreadId, id: Id)
    requires Shows(s, w)
    requires Stands(w, t, OpFind(0, id), Enter) && w.writer == None
    ensures Fits(s, Step(t, Any), To(w, t, Search).(readers := w.readers + {t}))
  {}

  lemma FindEnters(w: World, t: ThreadId, id: Id)
    requires Stands(w, t, OpFind(0, id), Enter) && w.writer == None
    ensures LeadsTo(w, Step(t, Any), To(w, t, Search).(readers := w.readers + {t}))
  {
    forall s | Shows(s, w) ensures Fits(s, Step(t, Any), To(w, t, Search).(readers := w.readers + {t})) {
      FindEntersFrom(s, w, t, id);
    }
  }

  lemma FindLooksFrom(s: State, w: World, t: ThreadId, o: Object)
    requires Shows(s, w)
    requires Stands(w, t, OpFind(0, o.id), Search) && Lookup(w.entries, o.id) == Some(o)
    ensures Fits(s, Step(t, Any), To(w, t, UnlockCache(Found(Some(o)))))
  {}

  lemma FindLooks(w: World, t: ThreadId, o: Object)
    requires Stands(w, t, OpFind(0, o.id), Search) && Lookup(w.entries, o.id) == Some(o)
    ensures LeadsTo(w, Step(t, Any), To(w, t, UnlockCache(Found(Some(o)))))
  {
    forall s | Shows(s, w) ensures Fits(s, Step(t, Any), To(w, t, UnlockCache(Found(Some(o))))) {
      FindLooksFrom(s, w, t, o);
    }
  }

  lemma FindUnlocksFrom(s: State, w: World, t: ThreadId, id: Id, res: Result)
    requires Shows(s, w)
    requires Stands(w, t, OpFind(0, id), UnlockCache(res))
    ensures Fits(s, Step(t, Any), To(w, t, Return(res)).(readers := w.readers - {t}))
  {}

  lemma FindUnlocks(w: World, t: ThreadId, id: Id, res: Result)
    requires Stands(w, t, OpFind(0, id), UnlockCache(res))
    ensures LeadsTo(w, Step(t, Any), To(w, t, Return(res)).(readers := w.readers - {t}))
  {
    forall s | Shows(s, w) ensures Fits(s, Step(t, Any), To(w, t, Return(res)).(readers := w.readers - {t})) {
      FindUnlocksFrom(s, w, t, id, res);
    }
  }

  lemma ReturnsFrom(s: State, w: World, t: ThreadId, id: Id, res: Result)
    requires Shows(s, w)
    requires Stands(w, t, OpFind(0, id), Return(res))
    ensures Fits(s, Step(t, Any), w.(pcs := w.pcs - {t}))
  {}

  lemma Returns(w: World, t: ThreadId, id: Id, res: Result)
    requires Stands(w, t, OpFind(0, id), Return(res))
    ensures LeadsTo(w, Step(t, Any), w.(pcs := w.pcs - {t}))
  {
    forall s | Shows(s, w) ensures Fits(s, Step(t, Any), w.(pcs := w.pcs - {t})) { ReturnsFrom(s, w, t, id, res); }
  }

  lemma StoreMeetsFrom(s: State, w: World, t: ThreadId, p: Object, prev: Object)
    requires Shows(s, w)
    requires Stands(w, t, OpStore(0, Some(p)), Search) && Lookup(w.entries, p.id) == Some(prev) && prev != p
    ensures Fits(s, Step(t, Any), To(w, t, AwaitDeletion(prev)))
  {}

  lemma StoreMeets(w: World, t: ThreadId, p: Object, prev: Object)
    requires Stands(w, t, OpStore(0, Some(p)), Search) && Lookup(w.entries, p.id) == Some(prev) && prev != p
    ensures LeadsTo(w, Step(t, Any), To(w, t, AwaitDeletion(prev)))
  {
    forall s | Shows(s, w) ensures Fits(s, Step(t, Any), To(w, t, AwaitDeletion(prev))) {
      StoreMeetsFrom(s, w, t, p, prev);
    }
  }

  lemma StoreTakesDeletionFrom(s: State, w: World, t: ThreadId, p: Object, prev: Object)
    requires Shows(s, w)
    requires Stands(w, t, OpStore(0, Some(p)), AwaitDeletion(prev)) && w.holder == None
    ensures Fits(s, Step(t, Any), To(w, t, Enqueue(prev)).(holder := Some(t)))
  {}

  lemma StoreTakesDeletion(w: World, t: ThreadId, p: Object, prev: Object)
    requires Stands(w, t, OpStore(0, Some(p)), AwaitDeletion(prev)) && w.holder == None
    ensures LeadsTo(w, Step(t, Any), To(w, t, Enqueue(prev)).(holder := Some(t)))
  {
    forall s | Shows(s, w) ensures Fits(s, Step(t, Any), To(w, t, Enqueue(prev)).(holder := Some(t))) {
      StoreTakesDeletionFrom(s, w, t, p, prev);
    }
  }

  lemma EnqueueObeys(s: State, w: World, t: ThreadId, p: Object, prev: Object)
    requires Shows(s, w)
    requires Stands(w, t, OpStore(0, Some(p)), Enqueue(prev)) && w.writer == Some(t)
    requires w.entries == map[prev.id := prev] && w.queue == map[] && w.freed == multiset{} && prev != p
    ensures ActionOf(s, Step(t, Any)) == Store(0, p) && Contract(Abs(s), Store(0, p))
  {}

  lemma StoreEnqueues(w: World, t: ThreadId, p: Object, prev: Object)
    requires Stands(w, t, OpStore(0, Some(p)), Enqueue(prev)) && w.writer == Some(t)
    requires w.entries == map[prev.id := prev] && w.queue == map[] && w.freed == multiset{} && prev != p
    ensures LeadsTo(w, Step(t, Any), To(w, t, Replace(prev)).(queue := map[prev := w.clock]))
  {
    forall s | Shows(s, w) ensures Fits(s, Step(t, Any), To(w, t, Replace(prev)).(queue := map[prev := w.clock])) {
      EnqueueObeys(s, w, t, p, prev);
    }
  }

  lemma StoreReplacesFrom(s: State, w: World, t: ThreadId, p: Object, prev: Object)
    requires Shows(s, w)
    requires Stands(w, t, OpStore(0, Some(p)), Replace(prev))
    ensures Fits(s, Step(t, Any), To(w, t, UnlockDeletion(Void)).(entries := w.entries[p.id := p]))
  {}

  lemma StoreReplaces(w: World, t: ThreadId, p: Object, prev: Object)
    requires Stands(w, t, OpStore(0, Some(p)), Replace(prev))
    ensures LeadsTo(w, Step(t, Any), To(w, t, UnlockDeletion(Void)).(entries := w.entries[p.id := p]))
  {
    forall s | Shows(s, w)
      ensures Fits(s, Step(t, Any), To(w, t, UnlockDeletion(Void)).(entries := w.entries[p.id := p]))
    {
      StoreReplacesFrom(s, w, t, p, prev);
    }
  }

  lemma StoreDropsDeletionFrom(s: State, w: World, t: ThreadId, p: Object)
    requires Shows(s, w)
    requires Stands(w, t, OpStore(0, Some(p)), UnlockDeletion(Void))
    ensures Fits(s, Step(t, Any), To(w, t, UnlockCache(Void)).(holder := None))
  {}

  lemma StoreDropsDeletion(w: World, t: ThreadId, p: Object)
    requires Stands(w, t, OpStore(0, Some(p)), UnlockDeletion(Void))
    ensures LeadsTo(w, Step(t, Any), To(w, t, UnlockCache(Void)).(holder := None))
  {
    forall s | Shows(s, w) ensures Fits(s, Step(t, Any), To(w, t, UnlockCache(Void)).(holder := None)) {
      StoreDropsDeletionFrom(s, w, t, p);
    }
  }

  lemma CollectReadsClockFrom(s: State, w: World, t: ThreadId)
    requires Shows(s, w)
    requires Stands(w, t, OpCollect, Enter)
    ensures Fits(s, Step(t, Any), To(w, t, AwaitDeletionToCollect(w.clock)))
  {}

  lemma CollectReadsClock(w: World, t: ThreadId)
    requires Stands(w, t, OpCollect, Enter)
    ensures LeadsTo(w, Step(t, Any), To(w, t, AwaitDeletionToCollect(w.clock)))
  {
    forall s | Shows(s, w) ensures Fits(s, Step(t, Any), To(w, t, AwaitDeletionToCollect(w.clock))) {
      CollectReadsClockFrom(s, w, t);
    }
  }

  lemma CollectTakesDeletionFrom(s: State, w: World, t: ThreadId, now: Time)
    requires Shows(s, w)
    requires Stands(w, t, OpCollect, AwaitDeletionToCollect(now)) && w.holder == None
    ensures Fits(s, Step(t, Any), To(w, t, Scan(now)).(holder := Some(t)))
  {}

  lemma CollectTakesDeletion(w: World, t: ThreadId, now: Time)
    requires Stands(w, t, OpCollect, AwaitDeletionToCollect(now)) && w.holder == None
    ensures LeadsTo(w, Step(t, Any), To(w, t, Scan(now)).(holder := Some(t)))
  {
    forall s | Shows(s, w) ensures Fits(s, Step(t, Any), To(w, t, Scan(now)).(holder := Some(t))) {
      CollectTakesDeletionFrom(s, w, t, now);
    }
  }

  lemma CollectFreesFrom(s: State, w: World, t: ThreadId, o: Object, now: Time)
    requires Shows(s, w)
    requires Stands(w, t, OpCollect, Scan(now)) && Expired(w.queue, o, now)
    ensures Fits(s, Step(t, Victim(o)), To(w, t, Forget(o, now)).(freed := w.freed + multiset{o}))
  {}

  lemma CollectFrees(w: World, t: ThreadId, o: Object, now: Time)
    requires Stands(w, t, OpCollect, Scan(now)) && Expired(w.queue, o, now)
    ensures LeadsTo(w, Step(t, Victim(o)), To(w, t, Forget(o, now)).(freed := w.freed + multiset{o}))
  {
    forall s | Shows(s, w)
      ensures Fits(s, Step(t, Victim(o)), To(w, t, Forget(o, now)).(freed := w.freed + multiset{o}))
    {
      CollectFreesFrom(s, w, t, o, now);
    }
  }

  // ---------------------------------------------------------------- paths

  datatype Path = Path(ws: seq<World>, mvs: seq<Move>)

  ghost predicate Shaped(p: Path) {
    |p.ws| == |p.mvs| + 1
  }

  ghost predicate Chain(step: (World, Move, World) -> bool, p: Path) {
    && Shaped(p)
    && (forall i {:trigger p.mvs[i]} :: 0 <= i < |p.mvs| ==> step(p.ws[i], p.mvs[i], p.ws[i + 1]))
  }

  ghost function Link(): (World, Move, World) -> bool {
    (w, mv, w') => LeadsTo(w, mv, w')
  }

  ghost predicate Linked(p: Path) {
    Chain(Link(), p)
  }

  /** The path has `n` moves from one world to the other. */
  ghost predicate Joins(p: Path, w: World, n: nat, w': World) {
    Linked(p) && |p.mvs| == n && p.ws[0] == w && p.ws[n] == w'
  }

  /** Thread `t` has an operation in progress all along the path. */
  ghost predicate Busy(p: Path, t: ThreadId) {
    forall i :: 0 <= i < |p.ws| ==> t in p.ws[i].pcs
  }

  lemma ChainOneMore(step: (World, Move, World) -> bool, p: Path, mv: Move, w: World)
    requires Chain(step, p) && step(p.ws[|p.mvs|], mv, w)
    ensures Chain(step, Path(p.ws + [w], p.mvs + [mv]))
  {
    var q := Path(p.ws + [w], p.mvs + [mv]);
    forall i {:trigger q.mvs[i]} | 0 <= i < |q.mvs| ensures step(q.ws[i], q.mvs[i], q.ws[i + 1]) {
      if i < |p.mvs| { assert q.mvs[i] == p.mvs[i]; }
    }
  }

  lemma Next(p: Path, w0: World, n: nat, w: World, mv: Move, w': World) returns (q: Path)
    requires Joins(p, w0, n, w) && LeadsTo(w, mv, w')
    ensures Joins(q, w0, n + 1, w') && q.ws == p.ws + [w'] && q.mvs == p.mvs + [mv]
  {
    ChainOneMore(Link(), p, mv, w');
    q := Path(p.ws + [w'], p.mvs + [mv]);
  }

  ghost function Both(p: Path, q: Path): (r: Path)
    requires Shaped(p) && Shaped(q)
    ensures Shaped(r) && |r.mvs| == |p.mvs| + |q.mvs|
  {
    Path(p.ws + q.ws[1..], p.mvs + q.mvs)
  }

  lemma FirstPart(p: Path, q: Path, i: nat)
    requires Shaped(p) && Shaped(q) && i <= |p.mvs|
    ensures Both(p, q).ws[i] == p.ws[i] && (i < |p.mvs| ==> Both(p, q).mvs[i] == p.mvs[i])
  {}

  lemma SecondPart(p: Path, q: Path, i: nat)
    requires Shaped(p) && Shaped(q) && p.ws[|p.mvs|] == q.ws[0] && i <= |q.mvs|
    ensures Both(p, q).ws[|p.mvs| + i] == q.ws[i] && (i < |q.mvs| ==> Both(p, q).mvs[|p.mvs| + i] == q.mvs[i])
  {}

  lemma ChainBoth(step: (World, Move, World) -> bool, p: Path, q: Path)
    requires Chain(step, p) && Chain(step, q) && p.ws[|p.mvs|] == q.ws[0]
    ensures Chain(step, Both(p, q))
  {
    var n, r := |p.mvs|, Both(p, q);
    forall i {:trigger r.mvs[i]} | 0 <= i < |r.mvs| ensures step(r.ws[i], r.mvs[i], r.ws[i + 1]) {
      if i < n {
        FirstPart(p, q, i);
        FirstPart(p, q, i + 1);
      } else {
        SecondPart(p, q, i - n);
        SecondPart(p, q, i - n + 1);
      }
    }
  }

  lemma BothLead(p: Path, q: Path, w0: World, n: nat, w: World, m: nat, w': World)
    requires Joins(p, w0, n, w) && Joins(q, w, m, w')
    ensures Joins(Both(p, q), w0, n + m, w')
  {
    ChainBoth(Link(), p, q);
    FirstPart(p, q, 0);
    SecondPart(p, q, m);
  }

  /** An execution, its callers obeying, that shows the worlds of the path one after the other. */
  ghost predicate Realises(ss: seq<State>, cs: set<CacheId>, p: Path) {
    && Shaped(p) && IsExecution(cs, ss, p.mvs) && CallersObey(ss, p.mvs)
    && forall i :: 0 <= i < |ss| ==> Shows(ss[i], p.ws[i])
  }

  ghost predicate Takes(s: State, mv: Move, s': State) {
    Can(s, mv) && Contract(Abs(s), ActionOf(s, mv)) && s' == Do(s, mv)
  }

  ghost function Taking(): (State, Move, State) -> bool {
    (s, mv, s') => Takes(s, mv, s')
  }

  ghost function Showing(): (State, World) -> bool {
    (s, w) => Shows(s, w)
  }

  /** Whatever shows `w` can take the move to something that shows `w'`. */
  ghost predicate Offers(take: (State, Move, State) -> bool, shows: (State, World) -> bool, w: World, mv: Move,
      w': World)
  {
    forall s :: shows(s, w) ==> exists s' :: take(s, mv, s') && shows(s', w')
  }

  /** A run along the path, for any kind of step and of showing. */
  lemma RunAlong(take: (State, Move, State) -> bool, shows: (State, World) -> bool, p: Path, start: State)
      returns (ss: seq<State>)
    requires Shaped(p) && shows(start, p.ws[0])
    requires forall i {:trigger p.mvs[i]} :: 0 <= i < |p.mvs| ==> Offers(take, shows, p.ws[i], p.mvs[i], p.ws[i + 1])
    ensures |ss| == |p.ws| && ss[0] == start
    ensures forall i :: 0 <= i < |ss| ==> shows(ss[i], p.ws[i])
    ensures forall i {:trigger p.mvs[i]} :: 0 <= i < |p.mvs| ==> take(ss[i], p.mvs[i], ss[i + 1])
  {
    ss := [start];
    for n := 0 to |p.mvs|
      invariant |ss| == n + 1 && ss[0] == start
      invariant forall i :: 0 <= i <= n ==> shows(ss[i], p.ws[i])
      invariant forall i {:trigger p.mvs[i]} :: 0 <= i < n ==> take(ss[i], p.mvs[i], ss[i + 1])
    {
      assert Offers(take, shows, p.ws[n], p.mvs[n], p.ws[n + 1]);
      var s' :| take(ss[n], p.mvs[n], s') && shows(s', p.ws[n + 1]);
      ss := ss + [s'];
    }
  }

  lemma LinkOffers(w: World, mv: Move, w': World)
    requires LeadsTo(w, mv, w')
    ensures Offers(Taking(), Showing(), w, mv, w')
  {
    forall s | Showing()(s, w) ensures exists s' :: Taking()(s, mv, s') && Showing()(s', w') {
      assert Taking()(s, mv, Do(s, mv)) && Showing()(Do(s, mv), w');
    }
  }

  lemma PathRuns(cs: set<CacheId>, p: Path) returns (ss: seq<State>)
    requires Linked(p) && Shows(Init(cs), p.ws[0])
    ensures Realises(ss, cs, p)
  {
    forall i {:trigger p.mvs[i]} | 0 <= i < |p.mvs|
      ensures Offers(Taking(), Showing(), p.ws[i], p.mvs[i], p.ws[i + 1])
    {
      assert Link()(p.ws[i], p.mvs[i], p.ws[i + 1]);
      LinkOffers(p.ws[i], p.mvs[i], p.ws[i + 1]);
    }
    ss := RunAlong(Taking(), Showing(), p, Init(cs));
    forall i {:trigger p.mvs[i]} | 0 <= i < |p.mvs| ensures Takes(ss[i], p.mvs[i], ss[i + 1]) {
      assert Taking()(ss[i], p.mvs[i], ss[i + 1]);
    }
    forall i | 0 <= i < |ss| ensures Shows(ss[i], p.ws[i]) { assert Showing()(ss[i], p.ws[i]); }
  }

  // ---------------------------------------------------------------- the execution

  const IDLE := World(map[], None, {}, None, map[], multiset{}, 0, map[])

  ghost function StoreOf(p: Object): Op {
    OpStore(0, Some(p))
  }

  /** Thread 0 has stored `a` and is about to return. */
  ghost function Stored(a: Object): World {
    IDLE.(entries := map[a.id := a], pcs := map[0 := (StoreOf(a), Return(Void))])
  }

  /** Thread 1 has looked `a` up and is about to return it. */
  ghost function LookedUp(a: Object): World {
    Stored(a).(pcs := Stored(a).pcs[1 := (OpFind(0, a.id), Return(Found(Some(a))))])
  }

  /** Thread 2 has stored `b` over `a`, which is queued, and is about to release the cache. */
  ghost function Replaced(a: Object, b: Object): World {
    LookedUp(a).(entries := map[a.id := a][b.id := b], writer := Some(2), queue := map[a := 0],
               pcs := LookedUp(a).pcs[2 := (StoreOf(b), UnlockCache(Void))])
  }

  lemma StorePath(a: Object) returns (p: Path)
    ensures Joins(p, IDLE, 5, Stored(a))
  {
    var w1 := IDLE.(pcs := IDLE.pcs[0 := (StoreOf(a), Enter)]);
    var w2 := To(w1, 0, Search).(writer := Some(0));
    var w3 := To(w2, 0, Insert);
    var w4 := To(w3, 0, UnlockCache(Void)).(entries := map[a.id := a]);
    Calls(IDLE, 0, StoreOf(a));
    StoreEnters(w1, 0, a);
    StoreMisses(w2, 0, a);
    StoreInserts(w3, 0, a);
    StoreUnlocks(w4, 0, a);
    assert To(w4, 0, Return(Void)).(writer := None) == Stored(a);
    p := Path([IDLE], []);
    p := Next(p, IDLE, 0, IDLE, Invoke(0, StoreOf(a)), w1);
    p := Next(p, IDLE, 1, w1, Step(0, Any), w2);
    p := Next(p, IDLE, 2, w2, Step(0, Any), w3);
    p := Next(p, IDLE, 3, w3, Step(0, Any), w4);
    p := Next(p, IDLE, 4, w4, Step(0, Any), Stored(a));
  }

  /** Thread 1 is about to look `a` up, at time 0. */
  ghost function Looking(a: Object): World {
    Stored(a).(readers := {1}, pcs := Stored(a).pcs[1 := (OpFind(0, a.id), Search)])
  }

  lemma CallPath(a: Object) returns (p: Path)
    ensures Joins(p, Stored(a), 2, Looking(a))
  {
    var find := OpFind(0, a.id);
    var w1 := Stored(a).(pcs := Stored(a).pcs[1 := (find, Enter)]);
    Calls(Stored(a), 1, find);
    FindEnters(w1, 1, a.id);
    assert To(w1, 1, Search).(readers := {} + {1}) == Looking(a);
    p := Path([Stored(a)], []);
    p := Next(p, Stored(a), 0, Stored(a), Invoke(1, find), w1);
    p := Next(p, Stored(a), 1, w1, Step(1, Any), Looking(a));
  }

  lemma LookPath(a: Object) returns (p: Path)
    ensures Joins(p, Looking(a), 2, LookedUp(a)) && p.mvs[0] == Step(1, Any) && Busy(p, 1)
  {
    var w1 := To(Looking(a), 1, UnlockCache(Found(Some(a))));
    FindLooks(Looking(a), 1, a);
    FindUnlocks(w1, 1, a.id, Found(Some(a)));
    assert To(w1, 1, Return(Found(Some(a)))).(readers := w1.readers - {1}) == LookedUp(a);
    p := Path([Looking(a)], []);
    p := Next(p, Looking(a), 0, Looking(a), Step(1, Any), w1);
    p := Next(p, Looking(a), 1, w1, Step(1, Any), LookedUp(a));
  }

  /** Thread 2 has found `a` in the slot and is about to take the deletion mutex. */
  ghost function Blocked(a: Object, b: Object): World {
    LookedUp(a).(writer := Some(2), pcs := LookedUp(a).pcs[2 := (StoreOf(b), AwaitDeletion(a))])
  }

  lemma MeetPath(a: Object, b: Object) returns (p: Path)
    requires a.id == b.id && a != b
    ensures Joins(p, LookedUp(a), 3, Blocked(a, b)) && Busy(p, 1)
  {
    var w0 := LookedUp(a);
    var w1 := w0.(pcs := w0.pcs[2 := (StoreOf(b), Enter)]);
    var w2 := To(w1, 2, Search).(writer := Some(2));
    Calls(w0, 2, StoreOf(b));
    StoreEnters(w1, 2, b);
    StoreMeets(w2, 2, b, a);
    assert To(w2, 2, AwaitDeletion(a)) == Blocked(a, b);
    p := Path([w0], []);
    p := Next(p, w0, 0, w0, Invoke(2, StoreOf(b)), w1);
    p := Next(p, w0, 1, w1, Step(2, Any), w2);
    p := Next(p, w0, 2, w2, Step(2, Any), Blocked(a, b));
  }

  /** Thread 2 has queued `a` and is about to overwrite the slot. */
  ghost function Queued(a: Object, b: Object): World {
    LookedUp(a).(writer := Some(2), holder := Some(2), queue := map[a := 0],
               pcs := LookedUp(a).pcs[2 := (StoreOf(b), Label.Replace(a))])
  }

  lemma EnqueuePath(a: Object, b: Object) returns (p: Path)
    requires a.id == b.id && a != b
    ensures Joins(p, Blocked(a, b), 2, Queued(a, b)) && Busy(p, 1)
  {
    var w0 := Blocked(a, b);
    var w1 := To(w0, 2, Enqueue(a)).(holder := Some(2));
    StoreTakesDeletion(w0, 2, b, a);
    StoreEnqueues(w1, 2, b, a);
    assert To(w1, 2, Label.Replace(a)).(queue := map[a := w1.clock]) == Queued(a, b);
    p := Path([w0], []);
    p := Next(p, w0, 0, w0, Step(2, Any), w1);
    p := Next(p, w0, 1, w1, Step(2, Any), Queued(a, b));
  }

  lemma ReplacePath(a: Object, b: Object) returns (p: Path)
    requires a.id == b.id && a != b
    ensures Joins(p, Queued(a, b), 2, Replaced(a, b)) && Busy(p, 1)
  {
    var w0 := Queued(a, b);
    var w1 := To(w0, 2, UnlockDeletion(Void)).(entries := w0.entries[b.id := b]);
    StoreReplaces(w0, 2, b, a);
    StoreDropsDeletion(w1, 2, b);
    assert To(w1, 2, UnlockCache(Void)).(holder := None) == Replaced(a, b);
    p := Path([w0], []);
    p := Next(p, w0, 0, w0, Step(2, Any), w1);
    p := Next(p, w0, 1, w1, Step(2, Any), Replaced(a, b));
  }

  /** Only now, `delay` seconds after the lookup, is thread 1 about to return. */
  ghost function Delayed(a: Object, b: Object, delay: nat): World {
    Replaced(a, b).(clock := delay)
  }

  /** Thread 3 has read the clock as `now` and walks the queue. */
  ghost function Scanning(a: Object, b: Object, now: Time): World {
    Replaced(a, b).(clock := now, holder := Some(3), pcs := (Replaced(a, b).pcs - {1})[3 := (OpCollect, Scan(now))])
  }

  lemma DelayPath(a: Object, b: Object, delay: nat) returns (p: Path)
    ensures Joins(p, Replaced(a, b), 1, Delayed(a, b, delay)) && Busy(p, 1)
  {
    Waits(Replaced(a, b), delay);
    p := Path([Replaced(a, b)], []);
    p := Next(p, Replaced(a, b), 0, Replaced(a, b), Wait(delay), Delayed(a, b, delay));
  }

  /** Thread 1 has returned, and it is later. */
  ghost function Later(a: Object, b: Object, now: Time): World {
    Replaced(a, b).(clock := now, pcs := Replaced(a, b).pcs - {1})
  }

  lemma ReturnPath(a: Object, b: Object, delay: nat, now: Time) returns (p: Path)
    requires delay <= now
    ensures Joins(p, Delayed(a, b, delay), 2, Later(a, b, now)) && p.mvs[0] == Step(1, Any)
  {
    var w0 := Delayed(a, b, delay);
    var w1 := w0.(pcs := w0.pcs - {1});
    Returns(w0, 1, a.id, Found(Some(a)));
    Waits(w1, now - delay);
    assert w1.(clock := w1.clock + (now - delay)) == Later(a, b, now);
    p := Path([w0], []);
    p := Next(p, w0, 0, w0, Step(1, Any), w1);
    p := Next(p, w0, 1, w1, Wait(now - delay), Later(a, b, now));
  }

  lemma CollectPath(a: Object, b: Object, now: Time) returns (p: Path)
    ensures Joins(p, Later(a, b, now), 3, Scanning(a, b, now))
  {
    var w0 := Later(a, b, now);
    var w1 := w0.(pcs := w0.pcs[3 := (OpCollect, Enter)]);
    var w2 := To(w1, 3, AwaitDeletionToCollect(now));
    Calls(w0, 3, OpCollect);
    CollectReadsClock(w1, 3);
    CollectTakesDeletion(w2, 3, now);
    assert To(w2, 3, Scan(now)).(holder := Some(3)) == Scanning(a, b, now);
    p := Path([w0], []);
    p := Next(p, w0, 0, w0, Invoke(3, OpCollect), w1);
    p := Next(p, w0, 1, w1, Step(3, Any), w2);
    p := Next(p, w0, 2, w2, Step(3, Any), Scanning(a, b, now));
  }

  lemma FreePath(a: Object, b: Object, now: Time) returns (p: Path, w: World)
    requires GRACE < now
    ensures Joins(p, Scanning(a, b, now), 1, w) && p.mvs[0] == Step(3, Victim(a))
  {
    var w0 := Scanning(a, b, now);
    w := To(w0, 3, Forget(a, now)).(freed := w0.freed + multiset{a});
    CollectFrees(w0, 3, a, now);
    p := Path([w0], []);
    p := Next(p, w0, 0, w0, Step(3, Victim(a)), w);
  }

  // ---------------------------------------------------------------- put together

  lemma BothBusy(p: Path, q: Path, w0: World, n: nat, w: World, m: nat, w': World, t: ThreadId)
    requires Joins(p, w0, n, w) && Joins(q, w, m, w') && Busy(p, t) && Busy(q, t)
    ensures Joins(Both(p, q), w0, n + m, w') && Busy(Both(p, q), t)
    ensures 0 < n ==> Both(p, q).mvs[0] == p.mvs[0]
  {
    BothLead(p, q, w0, n, w, m, w');
    FirstPart(p, q, 0);
  }

  lemma BeforePath(a: Object) returns (p: Path)
    ensures Joins(p, IDLE, 7, Looking(a))
  {
    var p1 := StorePath(a);
    var p2 := CallPath(a);
    BothLead(p1, p2, IDLE, 5, Stored(a), 2, Looking(a));
    p := Both(p1, p2);
  }

  /** From the lookup to the moment before the return. */
  lemma DuringPath(a: Object, b: Object, delay: nat) returns (p: Path)
    requires a.id == b.id && a != b
    ensures Joins(p, Looking(a), 10, Delayed(a, b, delay)) && p.mvs[0] == Step(1, Any) && Busy(p, 1)
  {
    var p1 := LookPath(a);
    var p2 := MeetPath(a, b);
    BothBusy(p1, p2, Looking(a), 2, LookedUp(a), 3, Blocked(a, b), 1);
    p := Both(p1, p2);
    var p3 := EnqueuePath(a, b);
    BothBusy(p, p3, Looking(a), 5, Blocked(a, b), 2, Queued(a, b), 1);
    p := Both(p, p3);
    var p4 := ReplacePath(a, b);
    BothBusy(p, p4, Looking(a), 7, Queued(a, b), 2, Replaced(a, b), 1);
    p := Both(p, p4);
    var p5 := DelayPath(a, b, delay);
    BothBusy(p, p5, Looking(a), 9, Replaced(a, b), 1, Delayed(a, b, delay), 1);
    p := Both(p, p5);
  }

  /** From the return to the deletion. */
  lemma AfterPath(a: Object, b: Object, delay: nat, now: Time) returns (p: Path, w: World)
    requires delay <= now && GRACE < now
    ensures Joins(p, Delayed(a, b, delay), 6, w)
    ensures p.mvs[0] == Step(1, Any) && p.mvs[5] == Step(3, Victim(a)) && p.ws[5] == Scanning(a, b, now)
  {
    var p1 := ReturnPath(a, b, delay, now);
    var p2 := CollectPath(a, b, now);
    BothLead(p1, p2, Delayed(a, b, delay), 2, Later(a, b, now), 3, Scanning(a, b, now));
    var p3;
    p3, w := FreePath(a, b, now);
    p := Both(p1, p2);
    FirstPart(p1, p2, 0);
    BothLead(p, p3, Delayed(a, b, delay), 5, Scanning(a, b, now), 1, w);
    FirstPart(p, p3, 0);
    SecondPart(p, p3, 0);
    p := Both(p, p3);
  }

  /** What the whole path shows: the lookup at move 7, the return at move 17, the deletion at move 22. */
  ghost predicate TooLate(p: Path, a: Object, b: Object, delay: nat, now: Time) {
    && Linked(p) && |p.mvs| == 23 && p.ws[0] == IDLE
    && p.mvs[7] == Step(1, Any) && p.ws[7] == Looking(a)
    && p.mvs[17] == Step(1, Any) && p.ws[17] == Delayed(a, b, delay)
    && (forall i :: 7 <= i <= 17 ==> 1 in p.ws[i].pcs)
    && p.mvs[22] == Step(3, Victim(a)) && p.ws[22] == Scanning(a, b, now)
  }

  lemma ThreeParts(p1: Path, p2: Path, p3: Path)
    requires Shaped(p1) && Shaped(p2) && Shaped(p3) && |p1.mvs| == 7 && |p2.mvs| == 10 && |p3.mvs| == 6
    requires p1.ws[7] == p2.ws[0] && p2.ws[10] == p3.ws[0] && Busy(p2, 1)
    ensures var p := Both(p1, Both(p2, p3));
            && |p.mvs| == 23
            && p.ws[7] == p2.ws[0] && p.mvs[7] == p2.mvs[0] && p.ws[17] == p3.ws[0] && p.mvs[17] == p3.mvs[0]
            && p.ws[22] == p3.ws[5] && p.mvs[22] == p3.mvs[5]
            && forall i :: 7 <= i <= 17 ==> 1 in p.ws[i].pcs
  {
    var q := Both(p2, p3);
    FirstPart(p2, p3, 0);
    SecondPart(p2, p3, 0);
    SecondPart(p2, p3, 5);
    SecondPart(p1, q, 0);
    SecondPart(p1, q, 10);
    SecondPart(p1, q, 15);
    forall i | 7 <= i <= 17 ensures 1 in Both(p1, q).ws[i].pcs {
      FirstPart(p2, p3, i - 7);
      SecondPart(p1, q, i - 7);
    }
  }

  lemma ThreePaths(p1: Path, p2: Path, p3: Path, w0: World, w1: World, w2: World, w: World)
    requires Joins(p1, w0, 7, w1) && Joins(p2, w1, 10, w2) && Joins(p3, w2, 6, w)
    ensures Joins(Both(p1, Both(p2, p3)), w0, 23, w)
  {
    BothLead(p2, p3, w1, 10, w2, 6, w);
    BothLead(p1, Both(p2, p3), w0, 7, w1, 16, w);
  }

  lemma LatePath(a: Object, b: Object, delay: nat, now: Time) returns (p: Path)
    requires a.id == b.id && a != b && delay <= now && GRACE < now
    ensures TooLate(p, a, b, delay, now)
  {
    var p1 := BeforePath(a);
    var p2 := DuringPath(a, b, delay);
    var p3, w := AfterPath(a, b, delay, now);
    ThreePaths(p1, p2, p3, IDLE, Looking(a), Delayed(a, b, delay), w);
    ThreeParts(p1, p2, p3);
    p := Both(p1, Both(p2, p3));
  }

  // ---------------------------------------------------------------- the result

  /** Thread `t` returns `o` from find. */
  ghost predicate HandsOver(s: State, mv: Move, t: ThreadId, o: Object) {
    && mv == Step(t, Any) && CanStep(s, t, Any)
    && s.threads[t].op.OpFind? && s.threads[t].at == Return(Found(Some(o)))
  }

  lemma LooksUp(s: State, a: Object)
    requires Shows(s, Looking(a))
    ensures FindsNow(s, Step(1, Any), a) && s.clock == 0
  {}

  lemma GivesBack(s: State, a: Object, b: Object, delay: nat)
    requires Shows(s, Delayed(a, b, delay))
    ensures HandsOver(s, Step(1, Any), 1, a) && s.clock == delay
  {
    assert Stands(Delayed(a, b, delay), 1, OpFind(0, a.id), Return(Found(Some(a))));
  }

  lemma Deletes(s: State, a: Object, b: Object, now: Time)
    requires Shows(s, Scanning(a, b, now)) && GRACE < now
    ensures FreesNow(s, Step(3, Victim(a)), a, now)
  {
    assert Stands(Scanning(a, b, now), 3, OpCollect, Scan(now));
  }

  lemma InitShowsIdle()
    ensures Shows(Init({0}), IDLE)
  {}

  /**
   In this execution, all callers obeying, thread `t` looks `o` up in find at move `i` and returns
   it from that call at move `r`.
   */
  ghost predicate FindReturns(cs: set<CacheId>, ss: seq<State>, mvs: seq<Move>, i: nat, r: nat, t: ThreadId,
      o: Object)
  {
    && IsExecution(cs, ss, mvs) && CallersObey(ss, mvs) && i < r < |mvs|
    && FindsNow(ss[i], mvs[i], o) && mvs[i].t == t && HandsOver(ss[r], mvs[r], t, o)
    && forall n :: i <= n <= r ==> t in ss[n].threads
  }

  /**
   The return came `delay` seconds after the lookup, and at move `j` a collection that read the
   clock as `now` frees the object.
   */
  ghost predicate FreedAfter(cs: set<CacheId>, ss: seq<State>, mvs: seq<Move>, i: nat, r: nat, j: nat, t: ThreadId,
      o: Object,
                             delay: nat, now: Time) {
    && FindReturns(cs, ss, mvs, i, r, t, o) && ss[r].clock == ss[i].clock + delay
    && i <= j < |mvs| && FreesNow(ss[j], mvs[j], o, now)
  }

  /**
   Every collection that frees an object read the clock more than `g` seconds after a return of
   find that came `delay` seconds after its lookup.
   */
  ghost predicate GraceFromReturn(delay: nat, g: nat) {
    forall cs, ss, mvs, i, r, j, t, o, now ::
      FreedAfter(cs, ss, mvs, i, r, j, t, o, delay, now) ==> MoreThan(g, ss, r, now)
  }

  ghost predicate MoreThan(g: nat, ss: seq<State>, r: nat, now: Time) {
    r < |ss| && ss[r].clock + g < now
  }

  lemma LateReturn(ss: seq<State>, p: Path, a: Object, b: Object, delay: nat, now: Time, g: nat)
    requires TooLate(p, a, b, delay, now) && Realises(ss, {0}, p) && GRACE < now <= delay + g
    ensures FreedAfter({0}, ss, p.mvs, 7, 17, 22, 1, a, delay, now) && !MoreThan(g, ss, 17, now)
  {
    LooksUp(ss[7], a);
    GivesBack(ss[17], a, b, delay);
    Deletes(ss[22], a, b, now);
    forall i | 7 <= i <= 17 ensures 1 in ss[i].threads { assert Shows(ss[i], p.ws[i]); }
  }

  lemma SlowReturn(delay: nat, g: nat)
    requires GRACE < delay + g
    ensures !GraceFromReturn(delay, g)
  {
    var a, b := Object(0, 0), Object(0, 1);
    var now := if delay <= GRACE then GRACE + 1 else delay;
    var p := LatePath(a, b, delay, now);
    InitShowsIdle();
    var ss := PathRuns({0}, p);
    LateReturn(ss, p, a, b, delay, now, g);
  }

  lemma PromptReturn(delay: nat, g: nat)
    requires delay + g <= GRACE
    ensures GraceFromReturn(delay, g)
  {
    forall cs, ss, mvs, i, r, j, t, o, now | FreedAfter(cs, ss, mvs, i, r, j, t, o, delay, now)
      ensures MoreThan(g, ss, r, now)
    {
      ThreadedGrace(cs, ss, mvs, i, j, o, now);
    }
  }

  /**
   The grace period counted from the return of find: `g` seconds are safe after a return that came
   `delay` seconds after the lookup exactly when both together do not exceed the 60.
   */
  lemma GraceFromReturnExactly(delay: nat, g: nat)
    ensures GraceFromReturn(delay, g) <==> delay + g <= 60
  {
    if delay + g <= GRACE {
      PromptReturn(delay, g);
    } else {
      SlowReturn(delay, g);
    }
  }
}
