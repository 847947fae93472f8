/**
 Several cache objects driven by any sequence of calls in one thread, with their deletion queue and
 its collector: together they go through a run of the ledger, whatever the calls.
 */
module CacheDriver {
  import opened Prelude
  import opened CacheLedger
  import opened CacheObjects

  /** `c` is the position of the cache called. */
  datatype Call =
    | Storing(c: nat, p: Option<Object>)
    | Removing(c: nat, p: Option<Object>)
    | Finding(c: nat, id: Id)
    | Counting(c: nat)
    | Rehashing(c: nat)
    | Collecting
    | Passing(seconds: nat)

  datatype Answer = Nothing | Found(found: Option<Object>) | Size(size: nat)

  predicate OnCache(call: Call, n: nat) {
    call.Collecting? || call.Passing? || call.c < n
  }

  ghost function Containers(caches: seq<Cache>): set<Container>
    reads caches
  {
    set c | c in caches :: c.cacheMap
  }

  /** The objects hold what the ledger says. */
  ghost predicate Mirrors(l: Ledger, caches: seq<Cache>, queue: DeletionQueue, now: Time)
    reads caches, Containers(caches), queue
  {
    && l.clock == now && l.queue == queue.pending && l.freed == queue.freed
    && (forall c: nat :: c in l.caches <==> c < |caches|)
    && (forall c :: 0 <= c < |caches| ==> l.caches[c] == caches[c].Contents())
  }

  ghost predicate IsPath(ls: seq<Ledger>, acts: seq<Action>) {
    && |ls| == |acts| + 1
    && (forall i {:trigger acts[i]} :: 0 <= i < |acts| ==>
          Enabled(ls[i], acts[i]) && ls[i + 1] == Apply(ls[i], acts[i]))
  }

  /** The actions of a call; a collection deletes what is due, one object after the other. */
  ghost predicate ActionsOf(call: Call, acts: seq<Action>, now: Time) {
    match call
    case Storing(c, p) => acts == if p.Some? then [Store(c, p.value)] else []
    case Removing(c, p) => acts == if p.Some? then [Remove(c, p.value)] else []
    case Passing(n) => acts == [Tick(n)]
    case Collecting => forall a :: a in acts ==> a.Free? && a.now == now
    case _ => acts == []
  }

  /** Nothing due is left in the queue, and what is not due stays. */
  ghost predicate Swept(l: Ledger, l': Ledger) {
    forall o :: o in l'.queue <==> o in l.queue && l.clock <= l.queue[o] + 60
  }

  /** What a call returns, by the ledger before it. */
  ghost predicate Answers(l: Ledger, call: Call, a: Answer) {
    match call
    case Finding(c, id) => c in l.caches && a == Found(if id in l.caches[c] then Some(l.caches[c][id]) else None)
    case Counting(c) => c in l.caches && a == Size(|l.caches[c]|)
    case _ => a == Nothing
  }

  method StoreOn(caches: seq<Cache>, queue: DeletionQueue, now: Time, c: nat, p: Option<Object>, ghost l: Ledger)
      returns (ghost ls: seq<Ledger>, ghost acts: seq<Action>)
    requires Separate(caches) && Mirrors(l, caches, queue, now) && c < |caches|
    modifies Containers(caches), queue
    ensures Separate(caches) && Containers(caches) == old(Containers(caches))
    ensures IsPath(ls, acts) && ls[0] == l && ActionsOf(Storing(c, p), acts, now)
            && Mirrors(ls[|acts|], caches, queue, now)
  {
    caches[c].Store(p, queue, now);
    ls, acts := [l], [];
    if p.Some? {
      ls, acts := [l, Apply(l, Store(c, p.value))], [Store(c, p.value)];
    }
  }

  method RemoveOn(caches: seq<Cache>, queue: DeletionQueue, now: Time, c: nat, p: Option<Object>, ghost l: Ledger)
      returns (ghost ls: seq<Ledger>, ghost acts: seq<Action>)
    requires Separate(caches) && Mirrors(l, caches, queue, now) && c < |caches|
    modifies Containers(caches), queue
    ensures Separate(caches) && Containers(caches) == old(Containers(caches))
    ensures IsPath(ls, acts) && ls[0] == l && ActionsOf(Removing(c, p), acts, now)
            && Mirrors(ls[|acts|], caches, queue, now)
  {
    caches[c].Remove(p, queue, now);
    ls, acts := [l], [];
    if p.Some? {
      ls, acts := [l, Apply(l, Remove(c, p.value))], [Remove(c, p.value)];
    }
  }

  method CollectOn(caches: seq<Cache>, queue: DeletionQueue, now: Time, ghost l: Ledger)
      returns (ghost ls: seq<Ledger>, ghost acts: seq<Action>)
    requires Separate(caches) && Mirrors(l, caches, queue, now)
    modifies caches, queue
    ensures Separate(caches)
    ensures forall c :: c in caches ==> c.cacheMap == old(c.cacheMap) || fresh(c.cacheMap)
    ensures IsPath(ls, acts) && ls[0] == l && ActionsOf(Collecting, acts, now)
            && Mirrors(ls[|acts|], caches, queue, now)
    ensures Swept(l, ls[|acts|])
  {
    ls, acts := CollectionIsFrees(l, now);
    GarbageCollection(queue, now, caches);
  }

  method RehashOn(caches: seq<Cache>, queue: DeletionQueue, now: Time, c: nat, ghost l: Ledger)
    requires Separate(caches) && Mirrors(l, caches, queue, now) && c < |caches|
    modifies caches[c]
    ensures Separate(caches)
    ensures forall c :: c in caches ==> c.cacheMap == old(c.cacheMap) || fresh(c.cacheMap)
    ensures Mirrors(l, caches, queue, now)
  {
    caches[c].Rehash();
  }

  method ReadOn(caches: seq<Cache>, queue: DeletionQueue, now: Time, call: Call, ghost l: Ledger)
      returns (answer: Answer)
    requires Mirrors(l, caches, queue, now) && OnCache(call, |caches|) && (call.Finding? || call.Counting?)
    ensures Answers(l, call, answer)
  {
    if call.Finding? {
      var r := caches[call.c].Find(call.id);
      return Found(r);
    } else {
      var n := caches[call.c].Count();
      return Size(n);
    }
  }

  /** One call, with the actions of the ledger it amounts to. */
  method Perform(caches: seq<Cache>, queue: DeletionQueue, now: Time, call: Call, ghost l: Ledger)
      returns (answer: Answer, later: Time, ghost ls: seq<Ledger>, ghost acts: seq<Action>)
    requires Separate(caches) && Mirrors(l, caches, queue, now) && OnCache(call, |caches|)
    modifies caches, Containers(caches), queue
    ensures Separate(caches)
    ensures forall c :: c in caches ==> c.cacheMap == old(c.cacheMap) || fresh(c.cacheMap)
    ensures IsPath(ls, acts) && ls[0] == l && ActionsOf(call, acts, now) && Mirrors(ls[|acts|], caches, queue, later)
    ensures Answers(l, call, answer) && (call.Collecting? ==> Swept(l, ls[|acts|]))
  {
    answer, later, ls, acts := Nothing, now, [l], [];
    match call
    case Storing(c, p) => ls, acts := StoreOn(caches, queue, now, c, p, l);
    case Removing(c, p) => ls, acts := RemoveOn(caches, queue, now, c, p, l);
    case Rehashing(c) => RehashOn(caches, queue, now, c, l);
    case Collecting => ls, acts := CollectOn(caches, queue, now, l);
    case Passing(n) =>
      later := now + n;
      ls, acts := [l, Apply(l, Tick(n))], [Tick(n)];
    case _ => answer := ReadOn(caches, queue, now, call, l);
  }

  /** The actions from `a` to `b` are those of the call, made and answered at the ledger they begin at. */
  ghost predicate Recorded(ls: seq<Ledger>, acts: seq<Action>, a: nat, b: nat, call: Call, answer: Answer) {
    && a <= b <= |acts| < |ls|
    && Answers(ls[a], call, answer) && ActionsOf(call, acts[a..b], ls[a].clock)
    && (call.Collecting? ==> Swept(ls[a], ls[b]))
  }

  /** A run of the ledger, call by call: `starts` tells where the actions of each call begin. */
  ghost predicate Records(ls: seq<Ledger>, acts: seq<Action>, starts: seq<nat>, calls: seq<Call>, answers: seq<Answer>)
  {
    && IsPath(ls, acts) && |answers| == |calls| && |starts| == |calls| + 1
    && starts[0] == 0 && starts[|calls|] == |acts|
    && forall k {:trigger calls[k]} :: 0 <= k < |calls| ==>
         Recorded(ls, acts, starts[k], starts[k + 1], calls[k], answers[k])
  }

  lemma PathGrows(ls: seq<Ledger>, acts: seq<Action>, ls': seq<Ledger>, acts': seq<Action>)
    requires IsPath(ls, acts) && IsPath(ls', acts') && ls'[0] == ls[|acts|]
    ensures IsPath(ls + ls'[1..], acts + acts')
    ensures (ls + ls'[1..])[|acts| + |acts'|] == ls'[|acts'|]
  {
    var all, moves := ls + ls'[1..], acts + acts';
    assert forall i :: 0 <= i <= |acts'| ==> all[|acts| + i] == ls'[i];
    forall i {:trigger moves[i]} | 0 <= i < |moves|
      ensures Enabled(all[i], moves[i]) && all[i + 1] == Apply(all[i], moves[i])
    {
      if i < |acts| {
        assert moves[i] == acts[i];
      } else {
        assert moves[i] == acts'[i - |acts|] && all[|acts| + (i - |acts|)] == ls'[i - |acts|];
        assert all[|acts| + (i - |acts| + 1)] == ls'[i - |acts| + 1];
      }
    }
  }

  lemma RecordedStays(ls: seq<Ledger>, acts: seq<Action>, ls': seq<Ledger>, acts': seq<Action>,
                      a: nat, b: nat, call: Call, answer: Answer)
    requires Recorded(ls, acts, a, b, call, answer) && ls <= ls' && acts <= acts' && |acts'| < |ls'|
    ensures Recorded(ls', acts', a, b, call, answer)
  {
    assert acts'[a..b] == acts[a..b] && ls'[a] == ls[a] && ls'[b] == ls[b];
  }

  lemma LastRecorded(ls: seq<Ledger>, acts: seq<Action>, l: Ledger, moves: seq<Action>, call: Call, answer: Answer)
    requires |acts| + |moves| < |ls| && ls[|acts|] == l && Answers(l, call, answer) && ActionsOf(call, moves, l.clock)
    requires call.Collecting? ==> Swept(l, ls[|acts| + |moves|])
    ensures Recorded(ls, acts + moves, |acts|, |acts| + |moves|, call, answer)
  {
    assert (acts + moves)[|acts|..|acts| + |moves|] == moves;
  }

  lemma RecordsGrow(ls: seq<Ledger>, acts: seq<Action>, starts: seq<nat>, calls: seq<Call>, answers: seq<Answer>,
                    call: Call, answer: Answer, ls': seq<Ledger>, acts': seq<Action>)
    requires Records(ls, acts, starts, calls, answers) && IsPath(ls', acts') && ls'[0] == ls[|acts|]
    requires Answers(ls'[0], call, answer) && ActionsOf(call, acts', ls'[0].clock)
    requires call.Collecting? ==> Swept(ls'[0], ls'[|acts'|])
    ensures Records(ls + ls'[1..], acts + acts', starts + [|acts| + |acts'|], calls + [call], answers + [answer])
    ensures (ls + ls'[1..])[|acts + acts'|] == ls'[|acts'|] && (ls + ls'[1..])[0] == ls[0]
  {
    PathGrows(ls, acts, ls', acts');
    var all, moves := ls + ls'[1..], acts + acts';
    var begins, asked, said := starts + [|moves|], calls + [call], answers + [answer];
    forall k {:trigger asked[k]} | 0 <= k < |asked|
      ensures Recorded(all, moves, begins[k], begins[k + 1], asked[k], said[k])
    {
      if k < |calls| {
        assert calls[k] == asked[k];
        RecordedStays(ls, acts, all, moves, starts[k], starts[k + 1], calls[k], answers[k]);
      } else {
        LastRecorded(all, acts, ls'[0], acts', call, answer);
      }
    }
  }

  method NewCaches(n: nat) returns (caches: seq<Cache>, ghost cs: set<CacheId>)
    ensures |caches| == n && Separate(caches) && forall c: nat :: c in cs <==> c < n
    ensures forall k :: 0 <= k < n ==> fresh(caches[k])
    ensures forall c :: c in caches ==> fresh(c) && fresh(c.cacheMap) && c.Contents() == map[]
  {
    caches, cs := [], {};
    for i := 0 to n
      invariant |caches| == i && Separate(caches) && forall c: nat :: c in cs <==> c < i
      invariant forall k :: 0 <= k < i ==> fresh(caches[k])
      invariant forall c :: c in caches ==> fresh(c) && fresh(c.cacheMap) && c.Contents() == map[]
    {
      var c := new Cache();
      caches, cs := caches + [c], cs + {i};
    }
  }

  /** What has been driven so far ends in `l`. */
  ghost predicate Driven(cs: set<CacheId>, ls: seq<Ledger>, acts: seq<Action>, starts: seq<nat>, calls: seq<Call>,
                         answers: seq<Answer>, l: Ledger)
  {
    Records(ls, acts, starts, calls, answers) && ls[0] == Start(cs) && ls[|acts|] == l
  }

  method DriveOn(caches: seq<Cache>, queue: DeletionQueue, now: Time, call: Call, before: seq<Answer>,
                 ghost cs: set<CacheId>, ghost ls: seq<Ledger>, ghost acts: seq<Action>, ghost starts: seq<nat>,
                 ghost calls: seq<Call>, ghost l: Ledger)
      returns (answers: seq<Answer>, later: Time, ghost ls': seq<Ledger>, ghost acts': seq<Action>,
               ghost starts': seq<nat>, ghost l': Ledger)
    requires Separate(caches) && Mirrors(l, caches, queue, now) && OnCache(call, |caches|)
    requires Driven(cs, ls, acts, starts, calls, before, l)
    modifies caches, Containers(caches), queue
    ensures Separate(caches)
    ensures forall c :: c in caches ==> c.cacheMap == old(c.cacheMap) || fresh(c.cacheMap)
    ensures Driven(cs, ls', acts', starts', calls + [call], answers, l') && Mirrors(l', caches, queue, later)
  {
    ghost var more, moves;
    var answer;
    answer, later, more, moves := Perform(caches, queue, now, call, l);
    RecordsGrow(ls, acts, starts, calls, before, call, answer, more, moves);
    answers, l' := before + [answer], more[|moves|];
    ls', acts', starts' := ls + more[1..], acts + moves, starts + [|acts| + |moves|];
  }

  lemma NothingDriven(cs: set<CacheId>)
    ensures Driven(cs, [Start(cs)], [], [0], [], [], Start(cs))
  {}

  lemma DrivenIsRun(cs: set<CacheId>, ls: seq<Ledger>, acts: seq<Action>, starts: seq<nat>, calls: seq<Call>,
                    answers: seq<Answer>, l: Ledger)
    requires Driven(cs, ls, acts, starts, calls, answers, l)
    ensures IsRun(ls, acts) && Records(ls, acts, starts, calls, answers) && ls[|acts|] == l
  {}

  method DriveAll(caches: seq<Cache>, queue: DeletionQueue, calls: seq<Call>, ghost cs: set<CacheId>)
      returns (answers: seq<Answer>, ghost ls: seq<Ledger>, ghost acts: seq<Action>, ghost starts: seq<nat>,
          ghost l: Ledger)
    requires Separate(caches) && Mirrors(Start(cs), caches, queue, 0)
    requires forall k :: 0 <= k < |calls| ==> OnCache(calls[k], |caches|)
    modifies caches, Containers(caches), queue
    ensures Separate(caches) && Driven(cs, ls, acts, starts, calls, answers, l) && Mirrors(l, caches, queue, l.clock)
  {
    var now := 0;
    l := Start(cs);
    answers, ls, acts, starts := [], [l], [], [0];
    NothingDriven(cs);
    assert calls[..0] == [];
    for k := 0 to |calls|
      invariant Separate(caches) && Mirrors(l, caches, queue, now)
      invariant forall c :: c in caches ==> c.cacheMap == old(c.cacheMap) || fresh(c.cacheMap)
      invariant Driven(cs, ls, acts, starts, calls[..k], answers, l)
    {
      answers, now, ls, acts, starts, l :=
        DriveOn(caches, queue, now, calls[k], answers, cs, ls, acts, starts, calls[..k], l);
      assert calls[..k + 1] == calls[..k] + [calls[k]];
    }
    assert calls[..|calls|] == calls;
  }

  /**
   Any caches, driven by any sequence of calls, go through a run of the ledger that does just what
   the calls do, and end as it does. So all that is proved of runs holds of the objects.
   */
  method Drive(n: nat, calls: seq<Call>)
      returns (caches: seq<Cache>, queue: DeletionQueue, answers: seq<Answer>,
               ghost ls: seq<Ledger>, ghost acts: seq<Action>, ghost starts: seq<nat>)
    requires forall k :: 0 <= k < |calls| ==> OnCache(calls[k], n)
    ensures |caches| == n && Separate(caches)
    ensures IsRun(ls, acts) && Records(ls, acts, starts, calls, answers)
    ensures Mirrors(ls[|acts|], caches, queue, ls[|acts|].clock)
  {
    ghost var cs, l;
    queue := new DeletionQueue();
    caches, cs := NewCaches(n);
    answers, ls, acts, starts, l := DriveAll(caches, queue, calls, cs);
    DrivenIsRun(cs, ls, acts, starts, calls, answers, l);
  }
}
