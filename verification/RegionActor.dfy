/**
 The region actor (internal/server/actor.go): fan-out with drops, the behind
 flag, piggybacked and timed catch-up. Each turn is proved to be a step of the
 delivery state machine.
 */
module Actor {
  import opened Capture
  import opened Scrollback
  import opened Delivery
  import opened Outbound

  /** The region's own frames; the queue is shared with every other sender. */
  function Mine(fs: seq<Frame>): seq<Frame> {
    if fs == [] then [] else Mine(fs[..|fs| - 1]) + (if fs[|fs| - 1].Foreign? then [] else [fs[|fs| - 1]])
  }

  lemma MineOne(fs: seq<Frame>, f: Frame)
    ensures Mine(fs + [f]) == if f.Foreign? then Mine(fs) else Mine(fs) + [f]
  {
    assert (fs + [f])[..|fs|] == fs;
    assert Mine(fs) + [] == Mine(fs);
  }

  datatype SubscriberState = SubscriberState(client: Client<Frame>, lastTotalAdded: nat)

  /** A client as the state machine sees it. */
  ghost function SubOf(c: Client<Frame>, lastTotal: nat): Sub
    reads c
  {
    Sub(c.followed, c.behind, lastTotal, c.refused)
  }

  /** The frames followed are exactly the region's frames among those the queue took. */
  ghost predicate Follows(c: Client<Frame>)
    reads c
  {
    c.Valid() && c.followed == Mine(c.Accepted())
  }

  /** The write loop and other senders run between any two sends of the actor. */
  method Elsewhere(c: Client<Frame>)
    requires Follows(c)
    modifies c`queue, c`wire, c`losses
    ensures Follows(c)
  {
    var turns: nat :| true;
    for i := 0 to turns
      invariant Follows(c)
    {
      if * {
        var fails := *;
        var _ := c.WriteOne(fails);
      } else {
        MineOne(c.Accepted(), Foreign);
        var _ := c.SendFrame(Foreign);
      }
    }
  }

  method Push(c: Client<Frame>, f: Frame) returns (sent: bool)
    requires Follows(c) && !f.Foreign?
    modifies c`queue, c`losses, c`refused, c`followed
    ensures Follows(c)
    ensures c.followed == if sent then old(c.followed) + [f] else old(c.followed)
    ensures c.refused == if sent then old(c.refused) else old(c.refused) + 1
  {
    ghost var accepted, followed := c.Accepted(), c.followed;
    sent := c.SendFrame(f);
    if sent {
      MineOne(accepted, f);
      c.followed := followed + [f];
    } else {
      c.refused := c.refused + 1;
    }
  }

  /** A send by the actor, at whatever moment it gets to run. */
  method Offer(c: Client<Frame>, f: Frame) returns (sent: bool)
    requires Follows(c) && !f.Foreign?
    modifies c`queue, c`wire, c`losses, c`refused, c`followed
    ensures Follows(c)
    ensures c.followed == if sent then old(c.followed) + [f] else old(c.followed)
    ensures c.refused == if sent then old(c.refused) else old(c.refused) + 1
  {
    Elsewhere(c);
    sent := Push(c, f);
  }

  /** The rows a snapshot delta carries, copied out of the retained history by index. */
  method ComputeScrollbackSince(hscreen: HistoryScreen, since: nat, upto: nat) returns (out: seq<Row>)
    ensures out == ScrollbackSince(hscreen.State(), since, upto)
  {
    if upto <= since {
      return [];
    }
    var lower := if since < hscreen.firstSeq then hscreen.firstSeq else since;
    var upper := if upto > hscreen.totalAdded then hscreen.totalAdded else upto;
    if upper <= lower || upper - hscreen.firstSeq > |hscreen.items| {
      return [];
    }
    out := CopyRows(hscreen.items, lower - hscreen.firstSeq, upper - hscreen.firstSeq);
  }

  method CopyRows(history: seq<Row>, lo: nat, hi: nat) returns (out: seq<Row>)
    requires lo <= hi <= |history|
    ensures out == history[lo..hi]
  {
    out := [];
    for i := lo to hi
      invariant out == history[lo..i]
    {
      out := out + [history[i]];
    }
  }

  /** One subscriber's round: send, mark behind on a drop, or piggyback the catch-up once a send landed. */
  method DeliverTo(sub: SubscriberState, frame: Frame, catchup: Frame, total: nat, expired: bool)
    returns (after: SubscriberState, outcome: Outcome)
    requires Follows(sub.client) && !frame.Foreign? && !catchup.Foreign?
    modifies sub.client`queue, sub.client`wire, sub.client`losses, sub.client`refused, sub.client`followed,
      sub.client`behind, sub.client`behindSince, sub.client`closed
    ensures Follows(sub.client) && after.client == sub.client
    ensures Possible(old(SubOf(sub.client, sub.lastTotalAdded)), outcome)
    ensures SubOf(sub.client, after.lastTotalAdded)
         == Attempt(old(SubOf(sub.client, sub.lastTotalAdded)), outcome, frame, catchup, total)
    ensures outcome.Landed? && old(sub.client.behind) ==> |sub.client.queue| == sub.client.cap
  {
    var c := sub.client;
    var sent := Offer(c, frame);
    if !sent {
      FallBehind(c, expired);
      return sub, Dropped;
    }
    after := sub.(lastTotalAdded := total);
    outcome := CatchUp(c, catchup);
  }

  /** A frame was dropped: the client is behind, and is shed once it has been for too long. */
  method FallBehind(c: Client<Frame>, expired: bool)
    requires Follows(c)
    modifies c`behind, c`behindSince, c`closed
    ensures Follows(c) && c.behind
  {
    if !c.behind {
      c.behind := true;
      c.behindSince := true;
    }
    if c.behindSince && expired {
      c.behindSince := false;
      c.Close();
    }
  }

  /** A frame landed: if the client was behind and there is still room, a snapshot may land too and end that. */
  method CatchUp(c: Client<Frame>, catchup: Frame) returns (outcome: Outcome)
    requires Follows(c) && !catchup.Foreign?
    modifies c`queue, c`wire, c`losses, c`refused, c`followed, c`behind, c`behindSince
    ensures Follows(c) && !outcome.Dropped? && (old(c.behind) || outcome.Landed?)
    ensures c.followed == old(c.followed) + if outcome.CaughtUp? then [catchup] else []
    ensures c.refused == old(c.refused) + if outcome.CatchupDropped? then 1 else 0
    ensures c.behind == (old(c.behind) && !outcome.CaughtUp?)
    ensures outcome.Landed? <==> !old(c.behind) || |old(c.queue)| == c.cap
    ensures outcome.Landed? ==> c.queue == old(c.queue)
  {
    if !c.behind {
      return Landed;
    }
    var room := c.WriteChHasRoom();
    if !room {
      return Landed;
    }
    var caught := Offer(c, catchup);
    if !caught {
      return CatchupDropped;
    }
    c.behind := false;
    c.behindSince := false;
    return CaughtUp;
  }

  /** Behind, not to be shed, and with room for a snapshot. */
  predicate Due(c: Client<Frame>, expired: bool)
    reads c
  {
    c.behind && !(c.behindSince && expired) && |c.queue| < c.cap
  }

  /** One behind subscriber's turn when the timer fires: shed it, skip it, or repair it. */
  method RepairOne(sub: SubscriberState, catchup: Frame, total: nat, expired: bool)
    returns (after: SubscriberState, outcome: Repair)
    requires Follows(sub.client) && !catchup.Foreign?
    modifies sub.client`queue, sub.client`wire, sub.client`losses, sub.client`refused, sub.client`followed,
      sub.client`behind, sub.client`behindSince, sub.client`closed
    ensures Follows(sub.client) && after.client == sub.client
    ensures outcome.LeftAlone? <==> !old(Due(sub.client, expired))
    ensures old(sub.client.behind && sub.client.behindSince) && expired ==> sub.client.closed
    ensures SubOf(sub.client, after.lastTotalAdded)
         == AfterRepair(old(SubOf(sub.client, sub.lastTotalAdded)), outcome, catchup, total)
  {
    var c := sub.client;
    if !c.behind {
      return sub, LeftAlone;
    }
    if c.behindSince && expired {
      c.behindSince := false;
      c.Close();
      return sub, LeftAlone;
    }
    var room := c.WriteChHasRoom();
    if !room {
      return sub, LeftAlone;
    }
    var sent := Offer(c, catchup);
    if !sent {
      return sub, RepairDropped;
    }
    c.behind := false;
    c.behindSince := false;
    return sub.(lastTotalAdded := total), Repaired;
  }

  /** Part-way through a fan-out: the clients in pending are untouched, every other one had its attempt. */
  ghost predicate FannedOut(before: map<nat, Sub>, now: map<nat, Sub>, pending: set<nat>,
                            frameFor: nat -> Frame, catchup: Frame, total: nat)
  {
    && now.Keys == before.Keys
    && forall d :: d in before ==>
         if d in pending then now[d] == before[d]
         else Attempted(before[d], now[d], frameFor(before[d].lastTotal), catchup, total)
  }

  lemma FanOutOne(before: map<nat, Sub>, prev: map<nat, Sub>, pending: set<nat>, id: nat, outcome: Outcome,
                  frameFor: nat -> Frame, catchup: Frame, total: nat)
    requires FannedOut(before, prev, pending, frameFor, catchup, total) && id in pending && id in before
    requires Possible(prev[id], outcome)
    ensures FannedOut(before, prev[id := Attempt(prev[id], outcome, frameFor(prev[id].lastTotal), catchup, total)],
                      pending - {id}, frameFor, catchup, total)
  {
  }

  class RegionActor {
    const proxy: EventProxy
    const hscreen: HistoryScreen
    var subscribers: map<nat, SubscriberState>
    var droppedBroadcasts: nat
    var catchupArmed: bool

    // What the screen shows, as the log of operations applied to it; and every row that scrolled off.
    var screen: seq<Event>
    ghost var rows: seq<Row>

    // Every client that may be a subscriber, and what the state machine knows of each subscriber.
    ghost var repr: set<Client<Frame>>
    ghost var subs: map<nat, Sub>

    ghost predicate Linked(id: nat)
      requires id in subscribers && id in subs
      reads this`subscribers, this`subs, this`repr, repr
    {
      var c := subscribers[id].client;
      c in repr && c.id == id && Follows(c) && subs[id] == SubOf(c, subscribers[id].lastTotalAdded)
    }

    ghost predicate ClientsValid()
      reads this`subscribers, this`subs, this`repr, repr
    {
      subs.Keys == subscribers.Keys && forall id {:trigger subscribers[id]} :: id in subscribers ==> Linked(id)
    }

    ghost predicate Valid()
      reads this, proxy, repr
    {
      proxy.Valid() && ClientsValid()
    }

    /** The actor as the state machine sees it. */
    ghost function State(): Region
      reads this, proxy, hscreen
    {
      Region(proxy.State(), screen, hscreen.State(), rows, subs, catchupArmed)
    }

    constructor (max: nat)
      requires max > 0
      ensures Valid() && Init(State()) && fresh(proxy) && fresh(hscreen)
    {
      proxy := new EventProxy();
      hscreen := new HistoryScreen(max);
      subscribers := map[];
      droppedBroadcasts, catchupArmed := 0, false;
      screen, rows := [], [];
      repr, subs := {}, map[];
    }

    /** Records a subscriber's new state once its client has been served. */
    method Put(id: nat, after: SubscriberState, ghost s: Sub)
      requires subs.Keys == subscribers.Keys && id in subscribers && after.client == subscribers[id].client
      requires after.client in repr && after.client.id == id && Follows(after.client)
      requires s == SubOf(after.client, after.lastTotalAdded)
      requires forall d {:trigger subscribers[d]} :: d in subscribers && d != id ==> Linked(d)
      modifies this`subscribers, this`subs
      ensures ClientsValid() && subs == old(subs)[id := s] && subscribers == old(subscribers)[id := after]
    {
      subscribers := subscribers[id := after];
      subs := subs[id := s];
    }

    method DeliverToOne(id: nat, frame: Frame, catchup: Frame, total: nat, expired: bool) returns (outcome: Outcome)
      requires ClientsValid() && id in subs && !catchup.Foreign? && !frame.Foreign?
      modifies this`subscribers, this`droppedBroadcasts, this`subs,
        repr`queue, repr`wire, repr`losses, repr`refused, repr`followed, repr`behind, repr`behindSince,
        repr`closed
      ensures ClientsValid()
      ensures Possible(old(subs)[id], outcome)
      ensures subs == old(subs)[id := Attempt(old(subs)[id], outcome, frame, catchup, total)]
    {
      var sub := subscribers[id];
      var after;
      after, outcome := DeliverTo(sub, frame, catchup, total, expired);
      droppedBroadcasts := droppedBroadcasts + if outcome.Dropped? then 1 else 0;
      Put(id, after, Attempt(subs[id], outcome, frame, catchup, total));
    }

    ghost predicate DueAt(id: nat, expired: bool)
      reads this`subscribers, if id in subscribers then {subscribers[id].client} else {}
    {
      id in subscribers && Due(subscribers[id].client, expired)
    }

    /** Everyone a snapshot should be offered to when the timer fires. */
    ghost function AllDue(expired: nat -> bool): set<nat>
      requires ClientsValid()
      reads this`subscribers, this`subs, this`repr, repr
    {
      set d | d in subscribers && Linked(d) && DueAt(d, expired(d))
    }

    method RepairAt(id: nat, catchup: Frame, total: nat, expired: bool)
      returns (outcome: Repair, after: SubscriberState)
      requires ClientsValid() && id in subs && !catchup.Foreign?
      modifies this`subscribers, this`subs,
        repr`queue, repr`wire, repr`losses, repr`refused, repr`followed, repr`behind, repr`behindSince,
        repr`closed
      ensures ClientsValid()
      ensures outcome.LeftAlone? <==> !old(DueAt(id, expired))
      ensures subscribers == old(subscribers)[id := after] && after.client == old(subscribers)[id].client
      ensures forall c :: c in repr && c != old(subscribers)[id].client ==> SameDue(c)
      ensures subs == old(subs)[id := AfterRepair(old(subs)[id], outcome, catchup, total)]
    {
      var sub := subscribers[id];
      after, outcome := RepairOne(sub, catchup, total, expired);
      Put(id, after, AfterRepair(subs[id], outcome, catchup, total));
    }

    /** That turn leaves the others as due as they were. */
    method RepairTurn(id: nat, catchup: Frame, total: nat, expired: bool) returns (outcome: Repair)
      requires ClientsValid() && id in subs && !catchup.Foreign?
      modifies this`subscribers, this`subs,
        repr`queue, repr`wire, repr`losses, repr`refused, repr`followed, repr`behind, repr`behindSince,
        repr`closed
      ensures ClientsValid()
      ensures outcome.LeftAlone? <==> !old(DueAt(id, expired))
      ensures outcome.LeftAlone? || old(subs)[id].behind
      ensures forall d, x {:trigger DueAt(d, x)} :: d != id ==> DueAt(d, x) == old(DueAt(d, x))
      ensures subs == old(subs)[id := AfterRepair(old(subs)[id], outcome, catchup, total)]
    {
      assert forall d :: d in subscribers ==> Linked(d) && subscribers[d].client.id == d;
      var after;
      outcome, after := RepairAt(id, catchup, total, expired);
      forall d, x | d != id && d in subscribers ensures DueAt(d, x) == old(DueAt(d, x)) {
        assert SameDue(subscribers[d].client);
      }
    }

    /** Serving one client changes nothing about whether another is due. */
    twostate predicate SameDue(c: Client<Frame>)
      reads c
    {
      c.queue == old(c.queue) && c.behind == old(c.behind) && c.behindSince == old(c.behindSince)
    }

    /** Fans a frame out to every subscriber; the frame may depend on what the subscriber last received. */
    method DeliverFrames(frameFor: nat -> Frame, catchup: Frame, total: nat, expired: nat -> bool)
      requires ClientsValid() && !catchup.Foreign? && forall n :: !frameFor(n).Foreign?
      modifies this`subscribers, this`droppedBroadcasts, this`subs,
        repr`queue, repr`wire, repr`losses, repr`refused, repr`followed, repr`behind, repr`behindSince,
        repr`closed
      ensures ClientsValid()
      ensures FannedOut(old(subs), subs, {}, frameFor, catchup, total)
    {
      var ids := subscribers.Keys;
      while ids != {}
        invariant ClientsValid() && ids <= subs.Keys
        invariant FannedOut(old(subs), subs, ids, frameFor, catchup, total)
        decreases ids
      {
        var id :| id in ids;
        ghost var prev := subs;
        var outcome := DeliverToOne(id, frameFor(subscribers[id].lastTotalAdded), catchup, total, expired(id));
        FanOutOne(old(subs), prev, ids, id, outcome, frameFor, catchup, total);
        ids := ids - {id};
      }
    }

    function Catchup(): Frame
      reads this, hscreen
    {
      ScreenUpdate(screen, [], |hscreen.items|, hscreen.totalAdded, true)
    }

    /** The message that carries trailing events and sync markers in order. */
    method CombineSyncs(events: seq<Event>, syncs: seq<string>) returns (f: Frame)
      ensures f == EventsFrame(Flushed(events, false, syncs))
    {
      var combined := events;
      for i := 0 to |syncs|
        invariant combined == events + SyncEvents(syncs)[..i]
      {
        combined := combined + [Sync(syncs[i])];
      }
      assert SyncEvents(syncs)[..|syncs|] == SyncEvents(syncs);
      f := TerminalEvents(combined);
    }

    method BroadcastTrailing(events: seq<Event>, syncs: seq<string>, expired: nat -> bool)
      requires ClientsValid()
      modifies this`subscribers, this`droppedBroadcasts, this`subs,
        repr`queue, repr`wire, repr`losses, repr`refused, repr`followed, repr`behind, repr`behindSince,
        repr`closed
      ensures ClientsValid()
      ensures if events == [] && syncs == [] then subs == old(subs)
              else FannedOut(old(subs), subs, {}, n => EventsFrame(Flushed(events, false, syncs)), Catchup(),
                hscreen.totalAdded)
    {
      if |events| == 0 && |syncs| == 0 {
        return;
      }
      var f := CombineSyncs(events, syncs);
      DeliverFrames(n => f, Catchup(), hscreen.totalAdded, expired);
    }

    /** One snapshot per subscriber, each with the rows it is missing. */
    method DeliverSnapshotPerSub(expired: nat -> bool)
      requires ClientsValid()
      modifies this`subscribers, this`droppedBroadcasts, this`subs,
        repr`queue, repr`wire, repr`losses, repr`refused, repr`followed, repr`behind, repr`behindSince,
        repr`closed
      ensures ClientsValid()
      ensures FannedOut(old(subs), subs, {}, DeltaFrames(screen, hscreen.State()), Catchup(), hscreen.totalAdded)
    {
      DeliverFrames(DeltaFrames(screen, hscreen.State()), Catchup(), hscreen.totalAdded, expired);
    }

    method SnapshotRound(out: Flushed, expired: nat -> bool)
      requires ClientsValid() && out.needsSnapshot
      modifies this`subscribers, this`droppedBroadcasts, this`subs,
        repr`queue, repr`wire, repr`losses, repr`refused, repr`followed, repr`behind, repr`behindSince,
        repr`closed
      ensures ClientsValid()
      ensures BroadcastAll(old(Shown()), out, subs)
    {
      ghost var a := Shown();
      DeliverSnapshotPerSub(expired);
      ghost var mid := subs;
      BroadcastTrailing(out.events, out.syncs, expired);
      SnapshotFanOut(a, out, mid, subs);
    }

    method EventsRound(out: Flushed, expired: nat -> bool)
      requires ClientsValid() && !out.needsSnapshot && !Silent(out)
      modifies this`subscribers, this`droppedBroadcasts, this`subs,
        repr`queue, repr`wire, repr`losses, repr`refused, repr`followed, repr`behind, repr`behindSince,
        repr`closed
      ensures ClientsValid()
      ensures BroadcastAll(old(Shown()), out, subs)
    {
      ghost var a := Shown();
      var f := CombineSyncs(out.events, out.syncs);
      DeliverFrames(n => f, Catchup(), hscreen.totalAdded, expired);
      EventsFanOut(a, out, subs);
    }

    /** Sends what a flush let go: nothing, a snapshot with what trails it, or one message of events and markers. */
    method FanOut(out: Flushed, expired: nat -> bool)
      requires ClientsValid()
      modifies this`subscribers, this`droppedBroadcasts, this`subs,
        repr`queue, repr`wire, repr`losses, repr`refused, repr`followed, repr`behind, repr`behindSince,
        repr`closed
      ensures ClientsValid()
      ensures BroadcastAll(old(Shown()), out, subs)
    {
      if !out.needsSnapshot && |out.events| == 0 && |out.syncs| == 0 {
        return;
      }
      if |subscribers| == 0 {
        assert subs.Keys == {};
        return;
      }
      if out.needsSnapshot {
        SnapshotRound(out, expired);
      } else {
        EventsRound(out, expired);
      }
    }

    /** The region without its proxy and timer: all that a fan-out looks at. */
    ghost function Shown(): Region
      reads this, hscreen
    {
      Region(FRESH, screen, hscreen.State(), rows, subs, false)
    }

    method BroadcastToSubscribers(expired: nat -> bool)
      requires Valid()
      modifies this`subscribers, this`droppedBroadcasts, this`subs,
        proxy, repr`queue, repr`wire, repr`losses, repr`refused, repr`followed, repr`behind, repr`behindSince,
        repr`closed
      ensures Valid() && AfterBroadcast(old(State()), State())
    {
      ghost var a, shown := State(), Shown();
      var events, needsSnapshot, syncs := proxy.Flush();
      FanOut(Flushed(events, needsSnapshot, syncs), expired);
      BroadcastIgnoresProxy(a, shown, FlushOutput(a.proxy), subs);
    }

    /** One call from the VT stream: the proxy forwards it to the screen and records it. */
    method FeedOne(e: Event)
      requires proxy.Valid() && !e.Sync?
      modifies this`screen, this`rows, proxy, hscreen
      ensures proxy.Valid() && State() == FedOne(old(State()), e)
    {
      hscreen.Handle(e);
      RecordOn(proxy, e);
      if !e.Bell? {
        screen := screen + [e];
      }
      rows := if e.Screen? then rows + e.rows else rows;
    }

    method FeedBytes(events: seq<Event>)
      requires proxy.Valid() && forall e :: e in events ==> !e.Sync?
      modifies this`screen, this`rows, proxy, hscreen
      ensures proxy.Valid() && State() == Fed(old(State()), events)
    {
      ghost var end := Fed(State(), events);
      for i := 0 to |events|
        invariant proxy.Valid() && Fed(State(), events[i..]) == end
      {
        FedNext(State(), events, i);
        FeedOne(events[i]);
      }
      FedNothing(State());
    }

    method SomeoneBehind() returns (b: bool)
      requires ClientsValid()
      ensures b == AnyBehind(subs)
    {
      var ids := subscribers.Keys;
      while ids != {}
        invariant ids <= subscribers.Keys
        invariant forall d :: d in subs && d !in ids ==> !subs[d].behind
        decreases ids
      {
        var id :| id in ids;
        if subscribers[id].client.behind {
          assert subs[id].behind;
          return true;
        }
        ids := ids - {id};
      }
      return false;
    }

    /** Arms the repair timer unless it is pending or nobody is behind. */
    method ArmCatchupIfBehind()
      requires ClientsValid()
      modifies this`catchupArmed
      ensures ClientsValid() && State() == Armed(old(State()))
    {
      if catchupArmed {
        return;
      }
      var behind := SomeoneBehind();
      if behind {
        catchupArmed := true;
      }
    }

    // ── Turns ────────────────────────────────────────────────────────────────

    /** Terminal output: all coalesced chunks are fed before one broadcast. */
    method HandlePtyData(events: seq<Event>, expired: nat -> bool)
      requires Valid() && forall e :: e in events ==> !e.Sync?
      modifies this`screen, this`rows, this`catchupArmed, this`subscribers, this`droppedBroadcasts, this`subs,
        proxy, hscreen, repr`queue, repr`wire, repr`losses, repr`refused, repr`followed, repr`behind,
        repr`behindSince, repr`closed
      ensures Valid() && Next(old(State()), PtyData(events), State())
    {
      ghost var a := State();
      FeedBytes(events);
      ghost var f := State();
      BroadcastToSubscribers(expired);
      BroadcastTurn(a, PtyData(events), f, State());
      ArmCatchupIfBehind();
    }

    method HandleSyncMarker(id: string, expired: nat -> bool)
      requires Valid()
      modifies this`catchupArmed, this`subscribers, this`droppedBroadcasts, this`subs,
        proxy, repr`queue, repr`wire, repr`losses, repr`refused, repr`followed, repr`behind, repr`behindSince,
        repr`closed
      ensures Valid() && Next(old(State()), SyncMarker(id), State())
    {
      ghost var a := State();
      proxy.EmitSyncMarker(id);
      ghost var f := State();
      BroadcastToSubscribers(expired);
      BroadcastTurn(a, SyncMarker(id), f, State());
      ArmCatchupIfBehind();
    }

    method HandleRemoveSubscriber(id: nat)
      requires Valid()
      modifies this`catchupArmed, this`subscribers, this`subs
      ensures Valid() && Next(old(State()), RemoveSubscriber(id), State())
    {
      LeaveTurn(State(), id);
      Unlist(id);
      ArmCatchupIfBehind();
    }

    method Unlist(id: nat)
      requires ClientsValid()
      modifies this`subscribers, this`subs
      ensures ClientsValid() && subs == old(subs) - {id}
    {
      subscribers := subscribers - {id};
      subs := subs - {id};
    }

    /** Offers a joining client its snapshot; one that does not fit leaves it behind. */
    method OfferFirst(c: Client<Frame>, f: Frame)
      requires Follows(c) && !f.Foreign?
      modifies c`queue, c`wire, c`losses, c`refused, c`followed, c`behind, c`behindSince
      ensures Follows(c)
      ensures var s := old(SubOf(c, 0)); SubOf(c, 0) == Refused(s) || SubOf(c, 0) == s.(accepted := s.accepted + [f])
    {
      var sent := Offer(c, f);
      if !sent {
        if !c.behind {
          c.behind := true;
          c.behindSince := true;
        }
      }
    }

    /** Offers a joining client the recent sync markers, if there are any. */
    method OfferBacklog(c: Client<Frame>)
      requires Follows(c)
      modifies c`queue, c`wire, c`losses, c`refused, c`followed
      ensures Follows(c)
      ensures var s, f := old(SubOf(c, 0)), TerminalEvents(SyncEvents(proxy.allSyncs));
              if proxy.allSyncs == [] then SubOf(c, 0) == s
              else SubOf(c, 0) == s.(refused := s.refused + 1) || SubOf(c, 0) == s.(accepted := s.accepted + [f])
    {
      if |proxy.allSyncs| > 0 {
        var f := CombineSyncs([], proxy.allSyncs);
        assert [] + SyncEvents(proxy.allSyncs) == SyncEvents(proxy.allSyncs);
        var _ := Offer(c, f);
      }
    }

    /** Sends the joining client its snapshot and the recent sync markers. */
    method Greet(c: Client<Frame>)
      requires Follows(c)
      modifies c`queue, c`wire, c`losses, c`refused, c`followed, c`behind, c`behindSince
      ensures Follows(c)
      ensures Joined(Shown().(proxy := proxy.State()), old(SubOf(c, 0)), SubOf(c, hscreen.totalAdded))
    {
      ghost var a, s := Shown().(proxy := proxy.State()), SubOf(c, 0);
      OfferFirst(c, ScreenUpdate(screen, [], |hscreen.items|, hscreen.totalAdded, false));
      ghost var mid := SubOf(c, 0);
      OfferBacklog(c);
      assert JoinedVia(a, s, mid, SubOf(c, hscreen.totalAdded));
    }

    method HandleAddSubscriber(c: Client<Frame>)
      requires Valid() && Follows(c) && (c.id in subscribers ==> subscribers[c.id].client == c)
      modifies this`catchupArmed, this`subscribers, this`subs, this`repr,
        c`queue, c`wire, c`losses, c`refused, c`followed, c`behind, c`behindSince
      ensures Valid() && Next(old(State()), AddSubscriber(c.id), State())
    {
      ghost var a := State();
      ghost var s := if c.id in subs then subs[c.id] else SubOf(c, 0);
      ghost var u := SubOf(c, 0);
      Greet(c);
      ghost var t := SubOf(c, hscreen.totalAdded);
      JoinIgnoresCounter(a, Shown().(proxy := proxy.State()), u, s, t);
      JoinTurn(a, c.id, s, t);
      Enlist(c, t);
      ArmCatchupIfBehind();
    }

    method Enlist(c: Client<Frame>, ghost t: Sub)
      requires subs.Keys == subscribers.Keys && Follows(c) && t == SubOf(c, hscreen.totalAdded)
      requires forall d {:trigger subscribers[d]} :: d in subscribers && d != c.id ==> Linked(d)
      modifies this`subscribers, this`subs, this`repr
      ensures ClientsValid() && subs == old(subs)[c.id := t]
    {
      repr := repr + {c};
      subscribers := subscribers[c.id := SubscriberState(c, hscreen.totalAdded)];
      subs := subs[c.id := t];
    }

    /** catchupBehindSubscribers. */
    method CatchupBehindSubscribers(expired: nat -> bool)
      requires ClientsValid()
      modifies this`subscribers, this`subs,
        repr`queue, repr`wire, repr`losses, repr`refused, repr`followed, repr`behind, repr`behindSince,
        repr`closed
      ensures ClientsValid()
      ensures RepairedAll(old(subs), subs, {}, old(Shown()))
      ensures ServedAll(old(subs), subs, old(AllDue(expired)))
    {
      ghost var a := Shown();
      var ids := subscribers.Keys;
      ghost var due := AllDue(expired);
      while ids != {}
        invariant ClientsValid() && ids <= subs.Keys
        invariant RepairedAll(a.subs, subs, ids, a)
        invariant forall d :: d in ids ==> (DueAt(d, expired(d)) <==> d in due)
        invariant ServedAll(a.subs, subs, due - ids)
        decreases ids
      {
        var id :| id in ids;
        ghost var prev := subs;
        var outcome := RepairTurn(id, Catchup(), hscreen.totalAdded, expired(id));
        RepairedOne(a.subs, prev, ids, id, outcome, a, Catchup(), subs, due);
        ids := ids - {id};
      }
    }

    method HandleCatchupTimer(expired: nat -> bool)
      requires Valid() && catchupArmed
      modifies this`catchupArmed, this`subscribers, this`subs,
        repr`queue, repr`wire, repr`losses, repr`refused, repr`followed, repr`behind, repr`behindSince,
        repr`closed
      ensures Valid() && Next(old(State()), CatchupTimer, State())
      ensures ServedAll(old(subs), subs, old(AllDue(expired)))
    {
      ghost var a, due := State(), AllDue(expired);
      catchupArmed := false;
      assert AllDue(expired) == due;
      CatchupBehindSubscribers(expired);
      assert ServedAll(a.subs, subs, due);
      RepairIgnoresProxy(a, old(Shown()), subs);
      TimerTurn(a, State());
      ArmCatchupIfBehind();
    }
  }

  method RecordOn(proxy: EventProxy, e: Event)
    requires proxy.Valid()
    modifies proxy
    ensures proxy.Valid() && proxy.State() == Recorded(old(proxy.State()), e)
  {
    if e.Modes? {
      if e.enable {
        proxy.SetMode(e.modes, e.privateModes);
      } else {
        proxy.ResetMode(e.modes, e.privateModes);
      }
    } else {
      proxy.Record(e);
    }
  }

  /** A snapshot was offered: it landed and ended the spell of being behind, or it was refused. */
  ghost predicate Served(before: map<nat, Sub>, now: map<nat, Sub>, d: nat) {
    d in before && d in now && (!now[d].behind || now[d].refused > before[d].refused)
  }

  ghost predicate RepairedAll(before: map<nat, Sub>, now: map<nat, Sub>, pending: set<nat>, a: Region) {
    && now.Keys == before.Keys
    && forall d :: d in before ==>
         if d in pending then now[d] == before[d] else TimerServed(a, before[d], now[d])
  }

  ghost predicate ServedAll(before: map<nat, Sub>, now: map<nat, Sub>, ids: set<nat>) {
    forall d :: d in ids ==> Served(before, now, d)
  }

  lemma RepairedOne(before: map<nat, Sub>, prev: map<nat, Sub>, pending: set<nat>, id: nat, outcome: Repair, a: Region,
                    catchup: Frame, now: map<nat, Sub>, due: set<nat>)
    requires RepairedAll(before, prev, pending, a) && id in pending && id in before
    requires (prev[id].behind || outcome.LeftAlone?) && (id in due ==> !outcome.LeftAlone?)
    requires catchup == CatchupFrame(a) && now == prev[id := AfterRepair(prev[id], outcome, catchup, a.hist.total)]
    ensures RepairedAll(before, now, pending - {id}, a)
    ensures ServedAll(before, prev, due - pending) ==> ServedAll(before, now, due - (pending - {id}))
  {
    assert prev[id] == before[id];
    if id in due {
      assert Served(before, now, id);
    }
    forall d | d in due - (pending - {id}) && ServedAll(before, prev, due - pending) ensures Served(before, now, d) {
      if d != id {
        assert Served(before, prev, d);
      }
    }
  }

  /** A repair depends only on the screen, the history and the subscribers. */
  lemma RepairIgnoresProxy(a: Region, shown: Region, after: map<nat, Sub>)
    requires shown == a.(proxy := FRESH, armed := false) && RepairedAll(a.subs, after, {}, shown)
    ensures RepairedAll(a.subs, after, {}, a)
  {
    assert CatchupFrame(a) == CatchupFrame(shown);
  }

  lemma FedNothing(a: Region)
    ensures Fed(a, []) == a
  {
    assert a.screen + [] == a.screen && a.rows + [] == a.rows;
  }

  /** Joining overwrites the row counter, so what it was before does not matter. */
  lemma JoinIgnoresCounter(a: Region, shown: Region, u: Sub, s: Sub, t: Sub)
    requires Joined(shown, u, t) && shown.proxy == a.proxy && shown.screen == a.screen && shown.hist == a.hist
    requires s == u.(lastTotal := s.lastTotal)
    ensures Joined(a, s, t)
  {
    var mid :| JoinedVia(shown, u, mid, t);
    assert JoinedVia(a, s, mid.(lastTotal := s.lastTotal), t);
  }

  /** The snapshot for a subscriber, as a function of its row counter. */
  function DeltaFrames(screen: seq<Event>, h: Hist): nat -> Frame {
    (n: nat) => ScreenUpdate(screen, ScrollbackSince(h, n, h.total), |h.items|, h.total, false)
  }

  lemma SnapshotFanOut(a: Region, out: Flushed, mid: map<nat, Sub>, after: map<nat, Sub>)
    requires out.needsSnapshot
    requires FannedOut(a.subs, mid, {}, DeltaFrames(a.screen, a.hist), CatchupFrame(a), a.hist.total)
    requires if out.events == [] && out.syncs == [] then after == mid
             else FannedOut(mid, after, {}, n => EventsFrame(Flushed(out.events, false, out.syncs)), CatchupFrame(a),
               a.hist.total)
    ensures BroadcastAll(a, out, after)
  {
    forall c | c in a.subs ensures Broadcast(a, out, a.subs[c], after[c]) {
      assert SnapshotThenTrailing(a, out, a.subs[c], mid[c], after[c]);
    }
  }

  ghost predicate BroadcastAll(a: Region, out: Flushed, after: map<nat, Sub>) {
    after.Keys == a.subs.Keys && forall c :: c in a.subs ==> Broadcast(a, out, a.subs[c], after[c])
  }

  /** A broadcast depends only on the screen, the history and the subscribers. */
  lemma BroadcastIgnoresProxy(a: Region, shown: Region, out: Flushed, after: map<nat, Sub>)
    requires BroadcastAll(shown, out, after) && shown == a.(proxy := FRESH, armed := false)
    ensures BroadcastAll(a, out, after)
  {
    forall c | c in a.subs ensures Broadcast(a, out, a.subs[c], after[c]) {
      var s, t := a.subs[c], after[c];
      assert Broadcast(shown, out, s, t);
      if !Silent(out) && out.needsSnapshot {
        var mid :| SnapshotThenTrailing(shown, out, s, mid, t);
        assert SnapshotThenTrailing(a, out, s, mid, t);
      }
    }
  }

  lemma EventsFanOut(a: Region, out: Flushed, after: map<nat, Sub>)
    requires !out.needsSnapshot && !Silent(out)
    requires FannedOut(a.subs, after, {}, n => EventsFrame(Flushed(out.events, false, out.syncs)), CatchupFrame(a),
      a.hist.total)
    ensures BroadcastAll(a, out, after)
  {
  }
}
