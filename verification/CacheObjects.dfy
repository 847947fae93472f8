/**
 The cache class and the garbage collector as they run in one thread: objects whose fields the
 operations update in place. Each method is proved against the functions the ledger is made of.
 The clock reading is a parameter.
 */
module CacheObjects {
  import opened Prelude
  import opened CacheLedger

  /** The heap-allocated std::unordered_map<snowflake, T*>. */
  class Container {
    var items: Entries

    constructor ()
      ensures items == map[]
    {
      items := map[];
    }
  }

  /** The global deletion_queue, with the objects deleted so far. */
  class DeletionQueue {
    var pending: map<Object, Time>
    var freed: multiset<Object>

    constructor ()
      ensures pending == map[] && freed == multiset{}
    {
      pending, freed := map[], multiset{};
    }
  }

  class Cache {
    var cacheMap: Container

    constructor ()
      ensures fresh(cacheMap) && Contents() == map[]
    {
      cacheMap := new Container();
    }

    ghost function Contents(): Entries
      reads this, cacheMap
    {
      cacheMap.items
    }

    method Store(obj: Option<Object>, queue: DeletionQueue, now: Time)
      modifies cacheMap, queue
      ensures cacheMap == old(cacheMap) && queue.freed == old(queue.freed)
      ensures obj.None? ==> Contents() == old(Contents()) && queue.pending == old(queue.pending)
      ensures obj.Some? ==>
                && Contents() == StoreEntries(old(Contents()), obj.value)
                && queue.pending == StoreQueue(old(Contents()), old(queue.pending), obj.value, now)
      ensures obj.Some? ==> Contents() == old(Contents())[obj.value.id := obj.value]
      ensures obj.Some? && obj.value.id in old(Contents()) && old(Contents())[obj.value.id] != obj.value ==>
                queue.pending == old(queue.pending)[old(Contents())[obj.value.id] := now]
      ensures obj.Some? && (obj.value.id in old(Contents()) ==> old(Contents())[obj.value.id] == obj.value) ==>
                queue.pending == old(queue.pending)
    {
      if obj.None? {
        return;
      }
      var p := obj.value;
      if p.id !in cacheMap.items {
        cacheMap.items := cacheMap.items[p.id := p];
      } else if p != cacheMap.items[p.id] {
        queue.pending := queue.pending[cacheMap.items[p.id] := now];
        cacheMap.items := cacheMap.items[p.id := p];
      }
    }

    method Remove(obj: Option<Object>, queue: DeletionQueue, now: Time)
      modifies cacheMap, queue
      ensures cacheMap == old(cacheMap) && queue.freed == old(queue.freed)
      ensures obj.None? ==> Contents() == old(Contents()) && queue.pending == old(queue.pending)
      ensures obj.Some? ==>
                && Contents() == RemoveEntries(old(Contents()), obj.value)
                && queue.pending == RemoveQueue(old(Contents()), old(queue.pending), obj.value, now)
      ensures obj.Some? ==> Contents() == old(Contents()) - {obj.value.id}
      ensures obj.Some? && obj.value.id in old(Contents()) ==> queue.pending == old(queue.pending)[obj.value := now]
      ensures obj.Some? && obj.value.id !in old(Contents()) ==> queue.pending == old(queue.pending)
    {
      if obj.None? {
        return;
      }
      var p := obj.value;
      if p.id in cacheMap.items {
        cacheMap.items := cacheMap.items - {p.id};
        queue.pending := queue.pending[p := now];
      } else {
        assert RemoveEntries(cacheMap.items, p) == cacheMap.items;
      }
    }

    method Find(id: Id) returns (r: Option<Object>)
      ensures r.Some? <==> id in Contents()
      ensures r.Some? ==> r.value == Contents()[id]
    {
      if id in cacheMap.items {
        return Some(cacheMap.items[id]);
      }
      return None;
    }

    method Count() returns (n: nat)
      ensures n == |Contents()|
    {
      return |cacheMap.items|;
    }

    /** Whatever order the old map is walked in, the new map ends up equal to it. */
    method Rehash()
      modifies this
      ensures fresh(cacheMap) && Contents() == old(Contents())
    {
      var n := new Container();
      var todo := cacheMap.items.Keys;
      while todo != {}
        invariant todo <= cacheMap.items.Keys
        invariant n.items == cacheMap.items - todo
        invariant cacheMap == old(cacheMap) && cacheMap.items == old(cacheMap.items) && fresh(n)
        decreases todo
      {
        var k :| k in todo;
        if k !in n.items {
          n.items := n.items[k := cacheMap.items[k]];
        }
        todo := todo - {k};
      }
      cacheMap := n;
    }
  }

  /**
   One pass of the deletion loop: walk the queue until an entry is due, delete it and stop, for the
   iterator is gone.
   */
  method DeleteOneDue(queue: DeletionQueue, now: Time) returns (g: Option<Object>)
    modifies queue
    ensures g.None? ==> queue.pending == old(queue.pending) && queue.freed == old(queue.freed)
    ensures g.None? ==> Victims(queue.pending, now) == {}
    ensures g.Some? ==>
              && g.value in Victims(old(queue.pending), now)
              && queue.pending == old(queue.pending) - {g.value}
              && queue.freed == old(queue.freed) + multiset{g.value}
  {
    var rest := queue.pending.Keys;
    while rest != {}
      invariant rest <= queue.pending.Keys
      invariant queue.pending == old(queue.pending) && queue.freed == old(queue.freed)
      invariant forall o :: o in queue.pending && o !in rest ==> !Expired(queue.pending, o, now)
      decreases rest
    {
      var o :| o in rest;
      rest := rest - {o};
      if Expired(queue.pending, o, now) {
        queue.freed := queue.freed + multiset{o};
        queue.pending := queue.pending - {o};
        return Some(o);
      }
    }
    return None;
  }

  /**
   The deletion loop: passes repeat until one finds nothing due. It deletes every due object once
   and touches no other.
   */
  method DeleteDue(queue: DeletionQueue, now: Time)
    modifies queue
    ensures queue.pending == Kept(old(queue.pending), now)
    ensures queue.freed == old(queue.freed) + multiset(Victims(old(queue.pending), now))
    ensures forall o :: o in queue.pending <==> o in old(queue.pending) && now <= old(queue.pending)[o] + 60
    ensures forall o :: o in queue.pending ==> queue.pending[o] == old(queue.pending)[o]
  {
    var g := DeleteOneDue(queue, now);
    if g.Some? { OneVictimLess(old(queue.pending), g.value, now); }
    while g.Some?
      invariant Kept(queue.pending, now) == Kept(old(queue.pending), now)
      invariant queue.freed + multiset(Victims(queue.pending, now)) ==
                old(queue.freed) + multiset(Victims(old(queue.pending), now))
      invariant g.None? ==> Victims(queue.pending, now) == {}
      decreases queue.pending.Keys, g.Some?
    {
      ghost var before := queue.pending;
      g := DeleteOneDue(queue, now);
      if g.Some? { OneVictimLess(before, g.value, now); }
    }
    assert forall o :: o in queue.pending ==> o !in Victims(queue.pending, now);
    if |queue.pending| == 0 {
      queue.pending := map[];
    }
  }

  /** No two caches are the same object or share a map. */
  ghost predicate Separate(caches: seq<Cache>)
    reads caches
  {
    forall i, j :: 0 <= i < j < |caches| ==> caches[i] != caches[j] && caches[i].cacheMap != caches[j].cacheMap
  }

  /** garbage_collection: delete what is due, then rehash the caches; every lookup is unaffected. */
  method GarbageCollection(queue: DeletionQueue, now: Time, caches: seq<Cache>)
    modifies queue, caches
    ensures queue.pending == Kept(old(queue.pending), now)
    ensures queue.freed == old(queue.freed) + multiset(Victims(old(queue.pending), now))
    ensures forall c :: c in caches ==> c.Contents() == old(c.Contents())
    ensures forall c :: c in caches ==> fresh(c.cacheMap)
    ensures old(Separate(caches)) ==> Separate(caches)
  {
    DeleteDue(queue, now);
    for i := 0 to |caches|
      invariant queue.pending == Kept(old(queue.pending), now)
      invariant queue.freed == old(queue.freed) + multiset(Victims(old(queue.pending), now))
      invariant forall c :: c in caches ==> c.Contents() == old(c.Contents())
      invariant forall k :: 0 <= k < i ==> fresh(caches[k].cacheMap)
      invariant old(Separate(caches)) ==> Separate(caches)
    {
      caches[i].Rehash();
    }
  }

  /**
   A collection is, action by action, a run of single deletions of the ledger, all within the clock
   reading it took.
   */
  lemma CollectionIsFrees(l: Ledger, now: Time) returns (ls: seq<Ledger>, acts: seq<Action>)
    requires now <= l.clock
    ensures |ls| == |acts| + 1 && ls[0] == l
    ensures forall i {:trigger acts[i]} :: 0 <= i < |acts| ==>
              && acts[i].Free? && acts[i].now == now
              && Enabled(ls[i], acts[i]) && ls[i + 1] == Apply(ls[i], acts[i])
    ensures ls[|acts|] == l.(queue := Kept(l.queue, now), freed := l.freed + multiset(Victims(l.queue, now)))
    decreases |Victims(l.queue, now)|
  {
    if Victims(l.queue, now) == {} {
      assert forall o :: o in l.queue ==> o !in Victims(l.queue, now);
      ls, acts := [l], [];
    } else {
      var o :| o in Victims(l.queue, now);
      var l1 := Apply(l, Free(o, now));
      OneVictimLess(l.queue, o, now);
      assert Victims(l1.queue, now) == Victims(l.queue, now) - {o};
      var ls', acts' := CollectionIsFrees(l1, now);
      ls, acts := [l] + ls', [Free(o, now)] + acts';
    }
  }
}
