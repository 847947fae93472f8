/**
 The object caches and the deferred-deletion protocol, seen atomically.

 A ledger records where every object that was ever handed to a cache is: in the map of a
 cache, in the global deletion queue, freed by the garbage collector, or given back to its
 allocator by the destruction of its cache. Each action is one whole operation. The threaded
 model (CacheThreads) is shown to refine this one, so what is proved here about runs of
 actions holds for every interleaving of the real steps.
 */
module CacheLedger {
  import opened Prelude

  /** dpp::snowflake */
  type Id = nat

  type CacheId = nat

  /** time_t, in seconds */
  type Time = nat

  /** A pointer to a dpp::managed object: `serial` tells apart allocations that carry the same id. */
  datatype Object = Object(id: Id, serial: nat)

  /** The std::unordered_map<snowflake, T*> owned by a cache. */
  type Entries = map<Id, Object>

  /** An object is freed once it has been queued for more than this many seconds. */
  const GRACE: nat := 60

  // The effect of cache::store and cache::remove on the map and on the deletion queue.

  function StoreEntries(m: Entries, p: Object): Entries {
    if p.id !in m then m[p.id := p]
    else if m[p.id] != p then m[p.id := p]
    else m
  }

  function StoreQueue(m: Entries, q: map<Object, Time>, p: Object, now: Time): map<Object, Time> {
    if p.id in m && m[p.id] != p then q[m[p.id] := now] else q
  }

  /** The entry is erased by id, whatever pointer it holds. */
  function RemoveEntries(m: Entries, p: Object): Entries {
    m - {p.id}
  }

  /** The pointer given is queued, not the pointer erased. */
  function RemoveQueue(m: Entries, q: map<Object, Time>, p: Object, now: Time): map<Object, Time> {
    if p.id in m then q[p := now] else q
  }

  /** An entry is due for deletion once it has been queued for more than the grace period. */
  predicate Expired(queue: map<Object, Time>, o: Object, now: Time) {
    o in queue && queue[o] + GRACE < now
  }

  /** What a collection that read the clock as `now` leaves in the queue, and what it deletes. */
  ghost function Kept(q: map<Object, Time>, now: Time): map<Object, Time> {
    map o | o in q && !Expired(q, o, now) :: q[o]
  }

  ghost function Victims(q: map<Object, Time>, now: Time): set<Object> {
    set o | o in q && Expired(q, o, now)
  }

  lemma OneVictimLess(q: map<Object, Time>, g: Object, now: Time)
    requires g in Victims(q, now)
    ensures Kept(q - {g}, now) == Kept(q, now)
    ensures multiset(Victims(q - {g}, now)) + multiset{g} == multiset(Victims(q, now))
  {}

  /** `stored` remembers every object that was ever passed to store. */
  datatype Ledger = Ledger(
    caches: map<CacheId, Entries>,
    queue: map<Object, Time>,
    freed: multiset<Object>,
    returned: set<Object>,
    stored: set<Object>,
    clock: Time)

  datatype Action =
    | Skip
    | Tick(seconds: nat)
    | Store(c: CacheId, p: Object)
    | Remove(c: CacheId, p: Object)
    | Free(o: Object, now: Time)
    | Destroy(c: CacheId)

  ghost predicate Enabled(l: Ledger, a: Action) {
    match a
    case Skip => true
    case Tick(_) => true
    case Store(c, _) => c in l.caches
    case Remove(c, _) => c in l.caches
    case Free(o, now) => Expired(l.queue, o, now) && now <= l.clock
    case Destroy(c) => c in l.caches
  }

  ghost function Apply(l: Ledger, a: Action): Ledger
    requires Enabled(l, a)
  {
    match a
    case Skip => l
    case Tick(n) => l.(clock := l.clock + n)
    case Store(c, p) =>
      l.(caches := l.caches[c := StoreEntries(l.caches[c], p)],
         queue := StoreQueue(l.caches[c], l.queue, p, l.clock),
         returned := l.returned - {p},
         stored := l.stored + {p})
    case Remove(c, p) =>
      l.(caches := l.caches[c := RemoveEntries(l.caches[c], p)],
         queue := RemoveQueue(l.caches[c], l.queue, p, l.clock))
    case Free(o, _) =>
      l.(queue := l.queue - {o}, freed := l.freed + multiset{o})
    case Destroy(c) =>
      l.(caches := l.caches - {c}, returned := l.returned + l.caches[c].Values)
  }

  ghost function Start(cs: set<CacheId>): Ledger {
    Ledger(map c | c in cs :: map[], map[], multiset{}, {}, {}, 0)
  }

  // ---------------------------------------------------------------- ownership

  ghost predicate LiveIn(l: Ledger, c: CacheId, o: Object) {
    c in l.caches && o.id in l.caches[c] && l.caches[c][o.id] == o
  }

  ghost predicate Live(l: Ledger, o: Object) {
    exists c :: LiveIn(l, c, o)
  }

  /** How many places hold `o`; an object freed twice is counted twice. */
  ghost function Places(l: Ledger, o: Object): nat {
    (if Live(l, o) then 1 else 0) + (if o in l.queue then 1 else 0) + l.freed[o]
    + (if o in l.returned then 1 else 0)
  }

  ghost predicate Keyed(l: Ledger) {
    forall c, k :: c in l.caches && k in l.caches[c] ==> l.caches[c][k].id == k
  }

  /**
   Every object ever stored is in exactly one place, under its own id and in one cache only;
   an object never stored is nowhere.
   */
  ghost predicate Owned(l: Ledger) {
    && Keyed(l)
    && (forall c, d, o :: LiveIn(l, c, o) && LiveIn(l, d, o) ==> c == d)
    && (forall o :: Places(l, o) == if o in l.stored then 1 else 0)
  }

  /**
   What the callers of a cache owe it. A stored object is either the one cached already or one
   that no cache, queue or collector has; a removed object is the one cached under its id.
   */
  ghost predicate Contract(l: Ledger, a: Action) {
    match a
    case Store(c, p) => LiveIn(l, c, p) || (!Live(l, p) && p !in l.queue && l.freed[p] == 0)
    case Remove(c, p) => c in l.caches && p.id in l.caches[c] ==> l.caches[c][p.id] == p
    case _ => true
  }

  lemma LiveElsewhere(l: Ledger, l': Ledger, c: CacheId, o: Object)
    requires forall d :: d != c ==> (LiveIn(l, d, o) <==> LiveIn(l', d, o))
    ensures Live(l', o) <==> LiveIn(l', c, o) || exists d :: d != c && LiveIn(l, d, o)
    ensures Live(l, o) <==> LiveIn(l, c, o) || exists d :: d != c && LiveIn(l, d, o)
  {}

  /** Storing the cached pointer again changes nothing; in particular it is not queued. */
  lemma RestoreIsNoOp(l: Ledger, c: CacheId, p: Object)
    requires Owned(l) && LiveIn(l, c, p)
    ensures Apply(l, Store(c, p)) == l
  {}

  lemma StoreKeepsOwned(l: Ledger, c: CacheId, p: Object)
    requires Owned(l) && c in l.caches && Contract(l, Store(c, p))
    ensures Owned(Apply(l, Store(c, p)))
  {
    var l' := Apply(l, Store(c, p));
    if LiveIn(l, c, p) {
      RestoreIsNoOp(l, c, p);
    } else {
      forall d, o | LiveIn(l', d, o) && o != p ensures LiveIn(l, d, o) {}
      forall d | LiveIn(l', d, p) ensures d == c {
        assert d != c ==> LiveIn(l, d, p);
      }
      forall o ensures Places(l', o) == if o in l'.stored then 1 else 0 {
        assert Places(l, o) == if o in l.stored then 1 else 0;
        LiveElsewhere(l, l', c, o);
        if o == p {
          assert LiveIn(l', c, p);
        } else if o.id == p.id && LiveIn(l, c, o) {
          assert Live(l, o) && !Live(l', o);
        } else {
          assert LiveIn(l, c, o) <==> LiveIn(l', c, o);
        }
      }
    }
  }

  lemma RemoveKeepsOwned(l: Ledger, c: CacheId, p: Object)
    requires Owned(l) && c in l.caches && Contract(l, Remove(c, p))
    ensures Owned(Apply(l, Remove(c, p)))
  {
    var l' := Apply(l, Remove(c, p));
    forall o ensures Places(l', o) == if o in l'.stored then 1 else 0 {
      assert Places(l, o) == if o in l.stored then 1 else 0;
      LiveElsewhere(l, l', c, o);
      assert o != p ==> (LiveIn(l, c, o) <==> LiveIn(l', c, o));
      if o == p && p.id in l.caches[c] {
        assert LiveIn(l, c, p);
      }
    }
    forall d, e, o | LiveIn(l', d, o) && LiveIn(l', e, o) ensures d == e {
      assert LiveIn(l, d, o) && LiveIn(l, e, o);
    }
  }

  lemma FreeKeepsOwned(l: Ledger, o: Object, now: Time)
    requires Owned(l) && Enabled(l, Free(o, now))
    ensures Owned(Apply(l, Free(o, now)))
  {
    var l' := Apply(l, Free(o, now));
    forall x ensures Live(l', x) <==> Live(l, x) {
      assert forall c :: LiveIn(l', c, x) <==> LiveIn(l, c, x);
    }
    assert forall x :: Places(l', x) == Places(l, x);
    forall d, e, x | LiveIn(l', d, x) && LiveIn(l', e, x) ensures d == e {
      assert LiveIn(l, d, x) && LiveIn(l, e, x);
    }
  }

  lemma DestroyKeepsOwned(l: Ledger, c: CacheId)
    requires Owned(l) && c in l.caches
    ensures Owned(Apply(l, Destroy(c)))
  {
    var l' := Apply(l, Destroy(c));
    forall o ensures Places(l', o) == if o in l'.stored then 1 else 0 {
      assert Places(l, o) == if o in l.stored then 1 else 0;
      LiveElsewhere(l, l', c, o);
      assert o in l.caches[c].Values <==> LiveIn(l, c, o);
      assert !LiveIn(l', c, o);
    }
    forall d, e, o | LiveIn(l', d, o) && LiveIn(l', e, o) ensures d == e {
      assert LiveIn(l, d, o) && LiveIn(l, e, o);
    }
  }

  lemma BadStoreBreaks(l: Ledger, c: CacheId, p: Object)
    requires Owned(l) && c in l.caches && !Contract(l, Store(c, p))
    ensures !Owned(Apply(l, Store(c, p)))
  {
    var l' := Apply(l, Store(c, p));
    assert LiveIn(l', c, p);
    if Live(l, p) {
      var d :| LiveIn(l, d, p);
      assert d != c && LiveIn(l', d, p);
    } else {
      assert Live(l', p) && Places(l', p) >= 2;
    }
  }

  lemma BadRemoveBreaks(l: Ledger, c: CacheId, p: Object)
    requires Owned(l) && c in l.caches && !Contract(l, Remove(c, p))
    ensures !Owned(Apply(l, Remove(c, p)))
  {
    var l' := Apply(l, Remove(c, p));
    var lost := l.caches[c][p.id];
    assert LiveIn(l, c, lost);
    assert Places(l, lost) == 1;
    LiveElsewhere(l, l', c, lost);
    assert Places(l', lost) == 0 && lost in l'.stored;
  }

  lemma TickKeepsOwned(l: Ledger, n: nat)
    requires Owned(l)
    ensures Owned(Apply(l, Tick(n)))
  {
    var l' := Apply(l, Tick(n));
    forall x ensures Live(l', x) <==> Live(l, x) {
      assert forall c :: LiveIn(l', c, x) <==> LiveIn(l, c, x);
    }
    assert forall x :: Places(l', x) == Places(l, x);
    forall d, e, x | LiveIn(l', d, x) && LiveIn(l', e, x) ensures d == e {
      assert LiveIn(l, d, x) && LiveIn(l, e, x);
    }
  }

  /** An action keeps ownership exactly when it obeys the callers' contract. */
  lemma OwnershipStep(l: Ledger, a: Action)
    requires Owned(l) && Enabled(l, a)
    ensures Owned(Apply(l, a)) <==> Contract(l, a)
  {
    match a
    case Skip =>
    case Tick(n) => TickKeepsOwned(l, n);
    case Store(c, p) => if Contract(l, a) { StoreKeepsOwned(l, c, p); } else { BadStoreBreaks(l, c, p); }
    case Remove(c, p) => if Contract(l, a) { RemoveKeepsOwned(l, c, p); } else { BadRemoveBreaks(l, c, p); }
    case Free(o, now) => FreeKeepsOwned(l, o, now);
    case Destroy(c) => DestroyKeepsOwned(l, c);
  }

  lemma StartOwned(cs: set<CacheId>)
    ensures Owned(Start(cs))
  {}

  // ---------------------------------------------------------------- runs

  ghost predicate IsRun(ls: seq<Ledger>, acts: seq<Action>) {
    && |ls| == |acts| + 1
    && (exists cs :: ls[0] == Start(cs))
    && (forall i {:trigger acts[i]} :: 0 <= i < |acts| ==>
          Enabled(ls[i], acts[i]) && ls[i + 1] == Apply(ls[i], acts[i]))
  }

  ghost predicate Obeys(ls: seq<Ledger>, acts: seq<Action>)
    requires |ls| == |acts| + 1
  {
    forall i :: 0 <= i < |acts| ==> Contract(ls[i], acts[i])
  }

  lemma ObeyingStep(ls: seq<Ledger>, acts: seq<Action>, i: nat)
    requires IsRun(ls, acts) && Obeys(ls, acts) && i < |acts| && Owned(ls[i])
    ensures Owned(ls[i + 1])
  {
    assert Enabled(ls[i], acts[i]) && Contract(ls[i], acts[i]);
    OwnershipStep(ls[i], acts[i]);
  }

  lemma {:induction false} ObeyingKeepsOwned(ls: seq<Ledger>, acts: seq<Action>, n: nat)
    requires IsRun(ls, acts) && Obeys(ls, acts) && n < |ls|
    ensures Owned(ls[n])
  {
    if n == 0 {
      var cs :| ls[0] == Start(cs);
      StartOwned(cs);
    } else {
      ObeyingKeepsOwned(ls, acts, n - 1);
      ObeyingStep(ls, acts, n - 1);
    }
  }

  /** Ownership conservation: every state of a run accounts for every object iff every call obeys the contract. */
  lemma OwnershipConservation(ls: seq<Ledger>, acts: seq<Action>)
    requires IsRun(ls, acts)
    ensures (forall i :: 0 <= i < |ls| ==> Owned(ls[i])) <==> Obeys(ls, acts)
  {
    if Obeys(ls, acts) {
      forall i | 0 <= i < |ls| ensures Owned(ls[i]) { ObeyingKeepsOwned(ls, acts, i); }
    }
    if forall i :: 0 <= i < |ls| ==> Owned(ls[i]) {
      forall i | 0 <= i < |acts| ensures Contract(ls[i], acts[i]) {
        assert ls[i + 1] == Apply(ls[i], acts[i]);
        OwnershipStep(ls[i], acts[i]);
      }
    }
  }

  /**
   A run that breaks ownership: one object is stored, and another with the same id is removed. The
   stored one is lost.
   */
  lemma WrongPointerIsLost()
    ensures var a, b := Object(7, 0), Object(7, 1);
            var l := Apply(Apply(Start({0}), Store(0, a)), Remove(0, b));
            a in l.stored && Places(l, a) == 0 && b in l.queue && b !in l.stored
  {}

  /** If `o` is in the queue, it was put there at `t` or later. */
  ghost predicate SafeSince(l: Ledger, o: Object, t: Time) {
    t <= l.clock && (o in l.queue ==> t <= l.queue[o])
  }

  lemma SafeSinceStep(l: Ledger, a: Action, o: Object, t: Time)
    requires Enabled(l, a) && SafeSince(l, o, t)
    ensures SafeSince(Apply(l, a), o, t)
  {}

  lemma SafeSinceRun(ls: seq<Ledger>, acts: seq<Action>, i: nat, j: nat, o: Object, t: Time)
    requires IsRun(ls, acts) && i <= j < |ls| && SafeSince(ls[i], o, t)
    ensures SafeSince(ls[j], o, t)
    decreases j - i
  {
    if i < j {
      assert ls[i + 1] == Apply(ls[i], acts[i]);
      SafeSinceStep(ls[i], acts[i], o, t);
      SafeSinceRun(ls, acts, i + 1, j, o, t);
    }
  }

  /**
   Grace period: an object that some cache held at one moment of a contract-obeying run is not
   freed by a collection whose clock reading is within 60 seconds of that moment, whatever is
   stored, replaced or removed in between.
   */
  lemma GracePeriod(ls: seq<Ledger>, acts: seq<Action>, i: nat, j: nat, o: Object)
    requires IsRun(ls, acts) && Obeys(ls, acts)
    requires i <= j < |acts|
    requires Live(ls[i], o)
    requires acts[j].Free? && acts[j].o == o
    ensures ls[i].clock + 60 < acts[j].now <= ls[j].clock
  {
    OwnershipConservation(ls, acts);
    assert Owned(ls[i]);
    assert Places(ls[i], o) <= 1;
    SafeSinceRun(ls, acts, i, j, o, ls[i].clock);
  }

  ghost function TightRun(a: Object, b: Object): (seq<Ledger>, seq<Action>)
    requires a.id == b.id && a != b
  {
    var l0 := Start({0});
    var l1 := Apply(l0, Store(0, a));
    var l2 := Apply(l1, Store(0, b));
    var l3 := Apply(l2, Tick(GRACE + 1));
    var l4 := Apply(l3, Free(a, GRACE + 1));
    ([l0, l1, l2, l3, l4], [Store(0, a), Store(0, b), Tick(GRACE + 1), Free(a, GRACE + 1)])
  }

  lemma TightRunObeys(a: Object, b: Object)
    requires a.id == b.id && a != b
    ensures var (ls, acts) := TightRun(a, b); Contract(ls[0], acts[0]) && Contract(ls[1], acts[1]) && Live(ls[1], a)
  {
    var (ls, acts) := TightRun(a, b);
    assert forall c, p :: !LiveIn(ls[0], c, p);
    assert forall c :: !LiveIn(ls[1], c, b);
    assert LiveIn(ls[1], 0, a);
  }

  /** The bound is tight: an object replaced at time 0 may be freed by a collection at time 61. */
  lemma GraceIsTight(a: Object, b: Object)
    requires a.id == b.id && a != b
    ensures var (ls, acts) := TightRun(a, b);
            && IsRun(ls, acts) && Obeys(ls, acts)
            && Live(ls[1], a) && ls[1].clock == 0 && acts[3] == Free(a, 61)
  {
    var (ls, acts) := TightRun(a, b);
    TightRunObeys(a, b);
    assert ls[0] == Start({0});
    forall i {:trigger acts[i]} | 0 <= i < |acts|
      ensures Enabled(ls[i], acts[i]) && ls[i + 1] == Apply(ls[i], acts[i])
    {
      assert i == 0 || i == 1 || i == 2 || i == 3;
    }
  }

  // ---------------------------------------------------------------- the deletion queue

  /** No entry leaves the queue except by being freed. */
  lemma QueueLeavesOnlyByFree(l: Ledger, a: Action, o: Object)
    requires Enabled(l, a) && o in l.queue && o !in Apply(l, a).queue
    ensures a.Free? && a.o == o && Apply(l, a).freed[o] == l.freed[o] + 1
  {}

  /** Under the contract the time stamp of a queued object is never moved, so its deletion is never postponed. */
  lemma QueuedStampIsFinal(l: Ledger, a: Action, o: Object)
    requires Owned(l) && Enabled(l, a) && Contract(l, a)
    requires o in l.queue && o in Apply(l, a).queue
    ensures Apply(l, a).queue[o] == l.queue[o]
  {
    assert Places(l, o) <= 1;
    if (a.Store? || a.Remove?) && a.p.id in l.caches[a.c] {
      assert LiveIn(l, a.c, l.caches[a.c][a.p.id]);
    }
  }

  /** A store or remove that takes `o` out of a cache. */
  ghost predicate TakesOut(l: Ledger, a: Action, o: Object)
    requires Enabled(l, a)
  {
    (a.Store? || a.Remove?) && LiveIn(l, a.c, o) && !LiveIn(Apply(l, a), a.c, o)
  }

  /** What an obeying caller takes out of a cache is queued with that time, and due more than 60 seconds later. */
  lemma TakenOutIsStampedNow(l: Ledger, a: Action, o: Object)
    requires Owned(l) && Enabled(l, a) && Contract(l, a) && TakesOut(l, a, o)
    ensures o in Apply(l, a).queue && Apply(l, a).queue[o] == l.clock
    ensures forall now :: Expired(Apply(l, a).queue, o, now) <==> l.clock + 60 < now
  {}

  /** The object taken out at step `i` was freed before step `j`, by a collection over 60 seconds later, or waits. */
  ghost predicate FreedOrWaiting(ls: seq<Ledger>, acts: seq<Action>, i: nat, j: nat, o: Object)
    requires |ls| == |acts| + 1 && i < j < |ls|
  {
    || (o in ls[j].queue && ls[j].queue[o] == ls[i].clock)
    || (o !in ls[j].queue && exists k :: i < k < j && acts[k].Free? && acts[k].o == o && ls[i].clock + 60 < acts[k].now)
  }

  lemma FreedStaysFreed(l: Ledger, a: Action, o: Object)
    requires Owned(l) && Enabled(l, a) && Contract(l, a) && l.freed[o] > 0
    ensures o !in Apply(l, a).queue && Apply(l, a).freed[o] > 0
  {
    assert Owned(Apply(l, a)) by { OwnershipStep(l, a); }
    assert Apply(l, a).freed[o] >= l.freed[o];
    assert Places(Apply(l, a), o) <= 1;
  }

  lemma {:induction false} TakenOutWaits(ls: seq<Ledger>, acts: seq<Action>, i: nat, j: nat, o: Object)
    requires IsRun(ls, acts) && Obeys(ls, acts) && i < j < |ls| && TakesOut(ls[i], acts[i], o)
    ensures FreedOrWaiting(ls, acts, i, j, o)
    ensures o !in ls[j].queue ==> ls[j].freed[o] > 0
    decreases j
  {
    ObeyingKeepsOwned(ls, acts, j - 1);
    var a := acts[j - 1];
    assert Enabled(ls[j - 1], a) && ls[j - 1 + 1] == Apply(ls[j - 1], a) && Contract(ls[j - 1], a);
    if j == i + 1 {
      TakenOutIsStampedNow(ls[i], acts[i], o);
    } else {
      TakenOutWaits(ls, acts, i, j - 1, o);
      if o in ls[j - 1].queue {
        if o in ls[j].queue {
          QueuedStampIsFinal(ls[j - 1], acts[j - 1], o);
        } else {
          QueueLeavesOnlyByFree(ls[j - 1], acts[j - 1], o);
        }
      } else {
        FreedStaysFreed(ls[j - 1], acts[j - 1], o);
      }
    }
  }

  /** The object taken out waits with the time of that moment, or has been freed once. */
  ghost predicate WaitsOrFreed(l: Ledger, o: Object, stamp: Time) {
    if o in l.queue then l.queue[o] == stamp && l.freed[o] == 0 else l.freed[o] == 1
  }

  lemma TakenOutOnce(ls: seq<Ledger>, acts: seq<Action>, i: nat, j: nat, o: Object)
    requires IsRun(ls, acts) && Obeys(ls, acts) && i < j < |ls| && TakesOut(ls[i], acts[i], o)
    ensures WaitsOrFreed(ls[j], o, ls[i].clock)
  {
    TakenOutWaits(ls, acts, i, j, o);
    ObeyingKeepsOwned(ls, acts, j);
    assert Places(ls[j], o) <= 1;
  }

  /**
   The fate of an object taken out of a cache in an obeying run: as long as it has not been freed it
   may be freed by exactly those collections that read the clock more than 60 seconds later.
   */
  lemma DueAfterSixtySeconds(ls: seq<Ledger>, acts: seq<Action>, i: nat, j: nat, o: Object, now: Time)
    requires IsRun(ls, acts) && Obeys(ls, acts) && i < j < |ls| && TakesOut(ls[i], acts[i], o) && ls[j].freed[o] == 0
    ensures Enabled(ls[j], Free(o, now)) <==> ls[i].clock + 60 < now <= ls[j].clock
  {
    TakenOutWaits(ls, acts, i, j, o);
  }

  // ---------------------------------------------------------------- history

  ghost predicate Touches(a: Action, c: CacheId, id: Id) {
    (a.Store? || a.Remove?) && a.c == c && a.p.id == id
  }

  /** Action `i` is a store of `id` that no later store or remove of that id supersedes. */
  ghost predicate Standing(acts: seq<Action>, i: nat, c: CacheId, id: Id) {
    && i < |acts| && acts[i].Store? && Touches(acts[i], c, id)
    && (forall j :: i < j < |acts| ==> !Touches(acts[j], c, id))
  }

  lemma StandingOnePast(acts: seq<Action>, i: nat, c: CacheId, id: Id)
    requires 0 < |acts|
    ensures Standing(acts, i, c, id) <==>
            if i == |acts| - 1 then acts[i].Store? && Touches(acts[i], c, id)
            else Standing(acts[..|acts| - 1], i, c, id) && !Touches(acts[|acts| - 1], c, id)
  {}

  /** A cache maps an id to the object of the latest store of that id, unless a later remove erased it. */
  lemma HistoryRefinement(ls: seq<Ledger>, acts: seq<Action>, c: CacheId, id: Id)
    requires IsRun(ls, acts) && c in ls[|acts|].caches
    ensures id in ls[|acts|].caches[c] <==> exists i: nat :: Standing(acts, i, c, id)
    ensures forall i: nat :: Standing(acts, i, c, id) ==>
              id in ls[|acts|].caches[c] && ls[|acts|].caches[c][id] == acts[i].p
    decreases |acts|
  {
    if acts != [] {
      var n := |acts| - 1;
      var before := acts[..n];
      assert ls[n + 1] == Apply(ls[n], acts[n]);
      assert IsRun(ls[..n + 1], before);
      HistoryRefinement(ls[..n + 1], before, c, id);
      forall i: nat ensures Standing(acts, i, c, id) <==>
                            if i == n then acts[i].Store? && Touches(acts[i], c, id)
                            else Standing(before, i, c, id) && !Touches(acts[n], c, id)
      {
        StandingOnePast(acts, i, c, id);
      }
      if acts[n].Store? && Touches(acts[n], c, id) {
        assert Standing(acts, n, c, id);
      }
    }
  }

  ghost function StandingIds(acts: seq<Action>, c: CacheId): set<Id> {
    set i: nat | i < |acts| && acts[i].Store? && Standing(acts, i, c, acts[i].p.id) :: acts[i].p.id
  }

  /** cache::count is the number of ids whose latest store stands. */
  lemma CountRefinement(ls: seq<Ledger>, acts: seq<Action>, c: CacheId)
    requires IsRun(ls, acts) && c in ls[|acts|].caches
    ensures |ls[|acts|].caches[c]| == |StandingIds(acts, c)|
  {
    var m := ls[|acts|].caches[c];
    forall id ensures id in m.Keys <==> id in StandingIds(acts, c) {
      HistoryRefinement(ls, acts, c, id);
      if i: nat :| Standing(acts, i, c, id) {
        assert acts[i].p.id == id;
      }
    }
    assert m.Keys == StandingIds(acts, c);
  }
}
