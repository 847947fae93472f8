/**
 What the linearized operations answer, told from the operations alone: find gives the object of
 the latest store of that id, count the number of ids whose latest store stands.
 */
module CacheAnswers {
  import opened Prelude
  import opened L = CacheLedger
  import opened T = CacheThreads
  import opened Z = CacheLinearizability
  import opened G = CacheGuarantees

  /** The operation stores or removes, in cache `c`, an object with this id. */
  predicate Concerns(op: Op, c: CacheId, id: Id) {
    match op
    case OpStore(d, p) => d == c && p.Some? && p.value.id == id
    case OpRemove(d, p) => d == c && p.Some? && p.value.id == id
    case _ => false
  }

  /** Entry `j` is a store of the id in the cache, and no entry between it and `k` concerns that id there. */
  ghost predicate LatestStore(log: seq<LogEntry>, j: nat, k: nat, c: CacheId, id: Id) {
    && j < k <= |log| && log[j].op.OpStore? && Concerns(log[j].op, c, id)
    && forall m :: j < m < k ==> !Concerns(log[m].op, c, id)
  }

  lemma LatestOnePast(log: seq<LogEntry>, e: LogEntry, j: nat, c: CacheId, id: Id)
    ensures LatestStore(log + [e], j, |log| + 1, c, id) <==>
            if Concerns(e.op, c, id) then e.op.OpStore? && j == |log| else LatestStore(log, j, |log|, c, id)
  {
    var longer := log + [e];
    assert longer[|log|] == e;
    assert forall m :: 0 <= m < |log| ==> longer[m] == log[m];
    if LatestStore(longer, j, |log| + 1, c, id) && j < |log| {
      assert !Concerns(longer[|log|].op, c, id);
    }
  }

  /** The maps that an entry leaves behind, for one cache and id. */
  lemma AtomicEffect(op: Op, maps: Maps, c: CacheId, id: Id)
    requires (op.OpCollect? || op.c in maps) && c in Atomic(op, maps).0
    ensures c in maps
    ensures id in Atomic(op, maps).0[c] <==> if Concerns(op, c, id) then op.OpStore? else id in maps[c]
    ensures id in Atomic(op, maps).0[c] ==>
              Atomic(op, maps).0[c][id] == if Concerns(op, c, id) then op.p.value else maps[c][id]
  {}

  /** After a legal log a cache maps an id to the object of its latest store, and to nothing otherwise. */
  lemma {:induction false} ReplayHolds(cs: set<CacheId>, log: seq<LogEntry>, c: CacheId, id: Id)
    requires Legal(cs, log) && c in Replay(cs, log)
    ensures id in Replay(cs, log)[c] <==> exists j: nat :: LatestStore(log, j, |log|, c, id)
    ensures forall j: nat :: LatestStore(log, j, |log|, c, id) ==>
              id in Replay(cs, log)[c] && Replay(cs, log)[c][id] == log[j].op.p.value
    decreases |log|
  {
    if log != [] {
      var before, e := log[..|log| - 1], log[|log| - 1];
      assert log == before + [e];
      AtomicEffect(e.op, Replay(cs, before), c, id);
      ReplayHolds(cs, before, c, id);
      forall j: nat ensures LatestStore(log, j, |log|, c, id) <==>
                            if Concerns(e.op, c, id) then e.op.OpStore? && j == |before|
                             else LatestStore(before, j, |before|, c, id)
      {
        LatestOnePast(before, e, j, c, id);
      }
      if Concerns(e.op, c, id) && e.op.OpStore? {
        assert LatestStore(log, |before|, |log|, c, id);
      }
    }
  }

  lemma {:induction false} LegalUpTo(cs: set<CacheId>, log: seq<LogEntry>, k: nat)
    requires Legal(cs, log) && k < |log|
    ensures Legal(cs, log[..k])
    ensures var before := Replay(cs, log[..k]);
            (log[k].op.OpCollect? || log[k].op.c in before) && log[k].res == Atomic(log[k].op, before).1
    decreases |log|
  {
    if k < |log| - 1 {
      LegalUpTo(cs, log[..|log| - 1], k);
      assert log[..|log| - 1][..k] == log[..k];
    }
  }

  lemma LatestInPrefix(log: seq<LogEntry>, j: nat, k: nat, c: CacheId, id: Id)
    requires k <= |log|
    ensures LatestStore(log[..k], j, k, c, id) <==> LatestStore(log, j, k, c, id)
  {
    assert forall m :: 0 <= m < k ==> log[..k][m] == log[m];
    if LatestStore(log[..k], j, k, c, id) { assert forall m :: j < m < k ==> !Concerns(log[..k][m].op, c, id); }
    if LatestStore(log, j, k, c, id) { assert forall m :: j < m < k ==> !Concerns(log[m].op, c, id); }
  }

  /** find answers with the object of the latest store of the id, unless a later remove concerned it. */
  lemma FindAnswers(cs: set<CacheId>, log: seq<LogEntry>, k: nat)
    requires Legal(cs, log) && k < |log| && log[k].op.OpFind?
    ensures var c, id := log[k].op.c, log[k].op.id;
            && log[k].res.Found?
            && (log[k].res.found.Some? <==> exists j: nat :: LatestStore(log, j, k, c, id))
            && (forall j: nat :: LatestStore(log, j, k, c, id) ==> log[k].res.found == log[j].op.p)
  {
    var c, id := log[k].op.c, log[k].op.id;
    LegalUpTo(cs, log, k);
    ReplayHolds(cs, log[..k], c, id);
    forall j: nat ensures LatestStore(log[..k], j, k, c, id) <==> LatestStore(log, j, k, c, id) {
      LatestInPrefix(log, j, k, c, id);
    }
  }

  /** The ids that have an object in the cache, told from the stores. */
  ghost function StoredIds(log: seq<LogEntry>, k: nat, c: CacheId): set<Id>
    requires k <= |log|
  {
    set j: nat | j < k && log[j].op.OpStore? && log[j].op.p.Some? && LatestStore(log, j, k, c, log[j].op.p.value.id)
      :: log[j].op.p.value.id
  }

  lemma StoredIdsHold(cs: set<CacheId>, log: seq<LogEntry>, k: nat, c: CacheId)
    requires Legal(cs, log) && k < |log| && c in Replay(cs, log[..k])
    ensures StoredIds(log, k, c) == Replay(cs, log[..k])[c].Keys
  {
    LegalUpTo(cs, log, k);
    forall id: Id ensures id in StoredIds(log, k, c) <==> id in Replay(cs, log[..k])[c].Keys {
      ReplayHolds(cs, log[..k], c, id);
      forall j: nat ensures LatestStore(log[..k], j, k, c, id) <==> LatestStore(log, j, k, c, id) {
        LatestInPrefix(log, j, k, c, id);
      }
      if j: nat :| LatestStore(log, j, k, c, id) { assert log[j].op.p.value.id == id; }
    }
  }

  /** count answers with the number of those ids. */
  lemma CountAnswers(cs: set<CacheId>, log: seq<LogEntry>, k: nat)
    requires Legal(cs, log) && k < |log| && log[k].op.OpCount?
    ensures log[k].res == Size(|StoredIds(log, k, log[k].op.c)|)
  {
    LegalUpTo(cs, log, k);
    StoredIdsHold(cs, log, k, log[k].op.c);
  }

  /**
   In every execution there is an order of the operations, respecting calls and returns, by which
   each find gave the object of the latest store and each count the number of ids that have one.
   */
  lemma AnswersInExecution(cs: set<CacheId>, ss: seq<State>, mvs: seq<Move>, n: nat) returns (log: seq<LogEntry>)
    requires IsExecution(cs, ss, mvs) && n < |ss|
    ensures WellLogged(ss[n].hist, log) && Returned(ss[n].hist, log)
    ensures forall k {:trigger log[k]} :: 0 <= k < |log| && log[k].op.OpFind? ==>
              && log[k].res.Found?
              && (log[k].res.found.Some? <==> exists j: nat :: LatestStore(log, j, k, log[k].op.c, log[k].op.id))
              && (forall j: nat :: LatestStore(log, j, k, log[k].op.c, log[k].op.id) ==>
                    log[k].res.found == log[j].op.p)
    ensures forall k {:trigger log[k]} :: 0 <= k < |log| && log[k].op.OpCount? ==>
              log[k].res == Size(|StoredIds(log, k, log[k].op.c)|)
  {
    Linearizable(cs, ss, mvs, n);
    log :| IsLinearization(cs, ss[n].hist, log) && Replay(cs, log) == Abs(ss[n]).caches;
    forall k {:trigger log[k]} | 0 <= k < |log| && log[k].op.OpFind?
      ensures log[k].res.Found?
      ensures log[k].res.found.Some? <==> exists j: nat :: LatestStore(log, j, k, log[k].op.c, log[k].op.id)
      ensures forall j: nat :: LatestStore(log, j, k, log[k].op.c, log[k].op.id) ==> log[k].res.found == log[j].op.p
    {
      FindAnswers(cs, log, k);
    }
    forall k {:trigger log[k]} | 0 <= k < |log| && log[k].op.OpCount?
      ensures log[k].res == Size(|StoredIds(log, k, log[k].op.c)|)
    {
      CountAnswers(cs, log, k);
    }
  }
}
