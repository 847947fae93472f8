/**
 The collector, its timed listener and its timer as objects updated in place, each method proved
 to take the machine of CollectorRuns one input further; and the reaction collector, whose filter
 hands out one object that it overwrites for every event.
 */
module CollectorObjects {
  import opened Prelude
  import opened CollectorRuns

  /** The collector's registration with the event router. */
  class Registration {
    var attached: bool

    constructor ()
      ensures attached
    {
      attached := true;
    }
  }

  /** A timer of the cluster; `stopping` is whether its handle is in deleted_timers. */
  class TimerEntry {
    var queued: bool
    var stopping: bool
    var nextTick: nat
    var frequency: nat

    constructor (now: nat, period: nat)
      ensures queued && !stopping && nextTick == now + period && frequency == period
    {
      queued, stopping, nextTick, frequency := true, false, now + period, period;
    }
  }

  class Collector<E, C> {
    const filter: E -> Option<C>
    var hasListener: bool          // tl is not null
    var stored: seq<C>
    var triggered: bool
    var completions: seq<seq<C>>   // the arguments completed() was called with
    var releases: nat              // deletions of the timed listener

    constructor (f: E -> Option<C>)
      ensures filter == f && hasListener && stored == [] && !triggered && completions == [] && releases == 0
    {
      filter, hasListener, stored, triggered, completions, releases := f, true, [], false, [], 0;
    }

    /** The lambda attached to the event. */
    method OnEvent(e: E)
      modifies `stored
      ensures stored == old(stored) + Selection(filter, Event(e))
      ensures filter(e).None? ==> stored == old(stored)
      ensures filter(e).Some? ==> stored == old(stored) + [filter(e).value]
    {
      var v := filter(e);
      if v.Some? {
        stored := stored + [v.value];
      }
    }

    /** The lambda given to the timed listener as its stop callback. */
    method OnStop()
      modifies `triggered, `completions
      ensures triggered
      ensures completions == if old(triggered) then old(completions) else old(completions) + [stored]
    {
      if !triggered {
        triggered := true;
        completions := completions + [stored];
      }
    }
  }

  /** A collector together with what it set up in the router and in the cluster. */
  class Session<E, C> {
    const collector: Collector<E, C>
    const registration: Registration
    const timer: TimerEntry
    var alive: bool
    var late: nat

    constructor (f: E -> Option<C>, now: nat, duration: nat)
      ensures fresh(collector) && fresh(registration) && fresh(timer)
      ensures collector.filter == f && Snapshot() == Begin(Setup(now, duration))
    {
      collector := new Collector(f);
      registration := new Registration();
      timer := new TimerEntry(now, duration);
      alive, late := true, 0;
    }

    ghost function Snapshot(): World<C>
      reads this, collector, registration, timer
    {
      World(alive, collector.hasListener, registration.attached, timer.queued, timer.stopping, timer.nextTick,
            timer.frequency, collector.stored, collector.triggered, collector.completions, late, collector.releases)
    }

    method Dispatch(e: E)
      modifies collector
      ensures Snapshot() == Next(collector.filter, old(Snapshot()), Event(e))
    {
      if registration.attached {
        collector.OnEvent(e);
      }
    }

    method StopCallback()
      modifies this, collector
      ensures Snapshot() == OnStop(old(Snapshot()))
    {
      if alive {
        collector.OnStop();
      } else {
        late := late + 1;
      }
    }

    /**
     The part of tick_timers that concerns this timer. `emptied`: unless there are others, the loop
     goes on to an empty queue.
     */
    method TickTimers(now: nat) returns (emptied: bool)
      modifies this, collector, registration, timer
      ensures Snapshot() == Next(collector.filter, old(Snapshot()), Tick(now))
      ensures emptied <==> EmptiesQueue(old(Snapshot()), now)
    {
      var before := timer.queued;
      while timer.queued && timer.nextTick <= now
        invariant TickPass(Snapshot(), now) == TickPass(old(Snapshot()), now)
        decreases timer.queued, !timer.stopping
      {
        if !timer.stopping {
          registration.attached := false;
          timer.stopping := true;
          timer.nextTick := timer.nextTick + timer.frequency;
        } else {
          timer.queued := false;
          StopCallback();
          timer.stopping := false;
        }
      }
      emptied := before && !timer.queued;
    }

    /** delete tl */
    method DeleteListener()
      modifies collector, registration, timer
      ensures Snapshot() == Release(old(Snapshot()))
    {
      if collector.hasListener {
        registration.attached := false;
        timer.stopping := true;
        collector.releases := collector.releases + 1;
        collector.hasListener := false;
      }
    }

    method Cancel()
      modifies collector, registration, timer
      ensures Snapshot() == Next(collector.filter, old(Snapshot()), Input<E>.Cancel)
    {
      DeleteListener();
    }

    method Destroy()
      modifies this, collector, registration, timer
      ensures Snapshot() == Next(collector.filter, old(Snapshot()), Input<E>.Destroy)
    {
      DeleteListener();
      alive := false;
    }

    method ShutdownCluster()
      modifies this, collector, timer
      ensures Snapshot() == Next(collector.filter, old(Snapshot()), Shutdown)
    {
      if timer.queued {
        StopCallback();
        timer.queued := false;
      }
    }
  }

  /** A collector driven through any sequence of inputs ends where the machine of CollectorRuns does. */
  method Play<E(!new), C(!new)>(f: E -> Option<C>, s: Setup, trace: seq<Input<E>>) returns (session: Session<E, C>)
    ensures fresh(session)
    ensures session.Snapshot() == Run(f, s, trace)
    ensures session.collector.completions == [] || session.collector.completions == [Collected(f, s, trace)]
  {
    session := new Session(f, s.start, s.duration);
    for i := 0 to |trace|
      invariant fresh(session) && fresh(session.collector) && fresh(session.registration) && fresh(session.timer)
      invariant session.collector.filter == f
      invariant session.Snapshot() == Run(f, s, trace[..i])
    {
      assert trace[..i + 1][..i] == trace[..i];
      match trace[i]
      case Event(e) => session.Dispatch(e);
      case Tick(now) => var _ := session.TickTimers(now);
      case Cancel => session.Cancel();
      case Destroy => session.Destroy();
      case Shutdown => session.ShutdownCluster();
    }
    assert trace[..|trace|] == trace;
    Delivery(f, s, trace);
  }

  // ---------------------------------------------------------------- reaction_collector

  /** The fields of a collected_reaction; users, guilds, channels and emojis are named by number. */
  datatype Reaction = Reaction(id: nat, user: nat, guild: nat, member: nat, channel: nat, emoji: nat, author: nat)

  datatype ReactionAdded = ReactionAdded(messageId: nat, user: nat, guild: nat, member: nat, channel: nat, emoji: nat,
      author: nat)

  /** A collected_reaction object. */
  class CollectedReaction {
    var id: nat
    var user: nat
    var guild: nat
    var member: nat
    var channel: nat
    var emoji: nat
    var author: nat

    constructor ()
    {
      id, user, guild, member, channel, emoji, author := 0, 0, 0, 0, 0, 0, 0;
    }

    function Value(): Reaction
      reads this
    {
      Reaction(id, user, guild, member, channel, emoji, author)
    }
  }

  function Captured(e: ReactionAdded): Reaction {
    Reaction(e.messageId, e.user, e.guild, e.member, e.channel, e.emoji, e.author)
  }

  /** Reactions of the wanted message; of every message if none is named. */
  function Wanted(messageId: nat, e: ReactionAdded): Option<Reaction> {
    if messageId == 0 || e.messageId == messageId then Some(Captured(e)) else None
  }

  /** The wanted reactions among some events, in order. */
  function WantedOf(messageId: nat, events: seq<ReactionAdded>): seq<Reaction> {
    if events == [] then []
    else WantedOf(messageId, events[..|events| - 1]) + Selection(e => Wanted(messageId, e), Event(events[|events| - 1]))
  }

  class ReactionCollector {
    const messageId: nat
    const react: CollectedReaction
    var stored: seq<Reaction>

    constructor (m: nat)
      ensures messageId == m && fresh(react) && stored == []
    {
      messageId, stored := m, [];
      react := new CollectedReaction();
    }

    /** The result is null or this collector's one buffer, filled from the event. */
    method Filter(e: ReactionAdded) returns (v: CollectedReaction?)
      modifies react
      ensures v != null <==> messageId == 0 || e.messageId == messageId
      ensures v != null ==>
                && v == react && react.id == e.messageId && react.user == e.user && react.guild == e.guild
                && react.member == e.member && react.channel == e.channel && react.emoji == e.emoji
                && react.author == e.author
      ensures v == null <==> Wanted(messageId, e).None?
      ensures v != null ==> v == react && react.Value() == Wanted(messageId, e).value
      ensures v == null ==> react.Value() == old(react.Value())
    {
      if messageId == 0 || e.messageId == messageId {
        react.id := e.messageId;
        react.user := e.user;
        react.guild := e.guild;
        react.member := e.member;
        react.channel := e.channel;
        react.emoji := e.emoji;
        react.author := e.author;
        return react;
      } else {
        return null;
      }
    }

    /** What is stored is a copy of the buffer, so a later overwrite does not reach it. */
    method OnEvent(e: ReactionAdded)
      modifies this, react
      ensures stored == old(stored) + Selection(e => Wanted(messageId, e), Event(e))
      ensures messageId != 0 && e.messageId != messageId ==> stored == old(stored)
      ensures messageId == 0 || e.messageId == messageId ==>
                stored == old(stored) + [Reaction(e.messageId, e.user, e.guild, e.member, e.channel, e.emoji, e.author)]
    {
      var v := Filter(e);
      if v != null {
        stored := stored + [v.Value()];
      }
    }

    /** Any sequence of events leaves the wanted ones' own data, in order. */
    method Receive(events: seq<ReactionAdded>)
      modifies this, react
      ensures stored == old(stored) + WantedOf(messageId, events)
    {
      for i := 0 to |events|
        invariant stored == old(stored) + WantedOf(messageId, events[..i])
      {
        assert events[..i + 1][..i] == events[..i];
        OnEvent(events[i]);
      }
      assert events[..|events|] == events;
    }
  }

  /** What is stored of a wanted event, field by field. */
  lemma WantedFields(messageId: nat, e: ReactionAdded)
    ensures Wanted(messageId, e).Some? <==> messageId == 0 || e.messageId == messageId
    ensures Wanted(messageId, e).Some? ==>
              var x := Wanted(messageId, e).value;
              && x.id == e.messageId && x.user == e.user && x.guild == e.guild && x.member == e.member
              && x.channel == e.channel && x.emoji == e.emoji && x.author == e.author
  {}

  /** The stored list has one entry for each wanted event: nothing is dropped, nothing merged, the order is kept. */
  lemma {:induction false} WantedOfSplits(messageId: nat, xs: seq<ReactionAdded>, ys: seq<ReactionAdded>)
    ensures WantedOf(messageId, xs + ys) == WantedOf(messageId, xs) + WantedOf(messageId, ys)
    decreases |ys|
  {
    if ys == [] {
      assert xs + ys == xs;
    } else {
      assert (xs + ys)[..|xs + ys| - 1] == xs + ys[..|ys| - 1];
      WantedOfSplits(messageId, xs, ys[..|ys| - 1]);
    }
  }
}
