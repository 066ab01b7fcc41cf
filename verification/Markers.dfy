/**
 Sync markers through a region (internal/server/event_proxy.go, actor.go): a
 marker waits while a synchronized batch is held, rides the next broadcast
 after the screen operations before it, and newcomers get the recent ones.
 */
module Markers {
  import opened Capture
  import opened ClientHistory
  import opened Delivery
  import opened Protocol
  import opened Scrollback
  import opened Terminal

  /** The marker ids a client reads in these frames. */
  function IdsIn(fs: seq<Frame>): seq<string> {
    if fs == [] then []
    else
      IdsIn(fs[..|fs| - 1]) + (if fs[|fs| - 1].TerminalEvents? then SyncIds(fs[|fs| - 1].events) else [])
  }

  /** The markers the region was asked to emit. */
  function Emissions(msgs: seq<Msg>): seq<string> {
    if msgs == [] then []
    else Emissions(msgs[..|msgs| - 1]) + (if msgs[|msgs| - 1].SyncMarker? then [msgs[|msgs| - 1].id] else [])
  }

  ghost predicate NoSyncs(es: seq<Event>) { forall i :: 0 <= i < |es| ==> !es[i].Sync? }

  lemma {:induction false} NoSyncsNoIds(es: seq<Event>)
    requires NoSyncs(es)
    ensures SyncIds(es) == [] && WithoutSyncs(es) == es
  {
    if es != [] {
      NoSyncsNoIds(es[..|es| - 1]);
    }
  }

  /** The markers of a broadcast follow its events, and are the ones that waited, in order. */
  lemma {:induction false} EventsThenMarkers(es: seq<Event>, ids: seq<string>)
    requires NoSyncs(es)
    ensures SyncIds(es + SyncEvents(ids)) == ids && WithoutSyncs(es + SyncEvents(ids)) == es
  {
    if ids == [] {
      assert es + SyncEvents(ids) == es;
      NoSyncsNoIds(es);
    } else {
      var init := ids[..|ids| - 1];
      LastMarker(es, ids);
      EventsThenMarkers(es, init);
      assert init + [ids[|ids| - 1]] == ids;
    }
  }

  lemma LastMarker(es: seq<Event>, ids: seq<string>)
    requires ids != []
    ensures var all := es + SyncEvents(ids);
            && all != [] && all[|all| - 1] == Sync(ids[|ids| - 1])
            && all[..|all| - 1] == es + SyncEvents(ids[..|ids| - 1])
  {
  }

  lemma {:induction false} IdsInAppend(fs: seq<Frame>, gs: seq<Frame>)
    ensures IdsIn(fs + gs) == IdsIn(fs) + IdsIn(gs)
  {
    if gs == [] {
      assert fs + gs == fs;
    } else {
      assert (fs + gs)[..|fs + gs| - 1] == fs + gs[..|gs| - 1];
      IdsInAppend(fs, gs[..|gs| - 1]);
    }
  }

  lemma IdsInOne(f: Frame)
    ensures IdsIn([f]) == if f.TerminalEvents? then SyncIds(f.events) else []
  {
    assert [f][..0] == [];
  }

  /** What a flush sends carries exactly the markers it took. */
  lemma SentIds(a: Region, out: Flushed, s: Sub)
    requires NoSyncs(out.events)
    ensures IdsIn(SentTo(a, out, s)) == out.syncs
  {
    EventsThenMarkers(out.events, out.syncs);
    IdsInOne(EventsFrame(out));
    IdsInOne(DeltaFrame(a, s));
    IdsInAppend([DeltaFrame(a, s)], if out.events == [] && out.syncs == [] then [] else [EventsFrame(out)]);
  }

  lemma FlushedIds(p: Proxy)
    requires p.syncEnd <= |p.batch| && NoSyncs(p.batch)
    ensures NoSyncs(FlushOutput(p).events) && NoSyncs(AfterFlush(p).batch)
    ensures FlushOutput(p).syncs + AfterFlush(p).pendingSyncs == p.pendingSyncs
  {
    FlushParts(p);
    assert [] + p.pendingSyncs == p.pendingSyncs && p.pendingSyncs + [] == p.pendingSyncs;
  }

  /** The markers c has been sent since some point, then those still waiting. */
  function Known(a: Region, s: Sub): seq<string> { IdsIn(s.accepted) + a.proxy.pendingSyncs }

  function KnownTo(a: Region, c: nat): seq<string> { if c in a.subs then Known(a, a.subs[c]) else [] }

  lemma BroadcastIds(a: Region, b: Region, c: nat)
    requires AfterBroadcast(a, b) && c in a.subs && NoSyncs(a.proxy.batch)
    requires !a.subs[c].behind && b.subs[c].refused == a.subs[c].refused
    ensures NoSyncs(b.proxy.batch) && !b.subs[c].behind && Known(b, b.subs[c]) == Known(a, a.subs[c])
  {
    var s, out := a.subs[c], FlushOutput(a.proxy);
    UnrefusedBroadcast(a, out, s, b.subs[c]);
    FlushedIds(a.proxy);
    SentIds(a, out, s);
    IdsInAppend(s.accepted, SentTo(a, out, s));
    assert IdsIn(s.accepted) + out.syncs + AfterFlush(a.proxy).pendingSyncs ==
      IdsIn(s.accepted) + (out.syncs + AfterFlush(a.proxy).pendingSyncs);
  }

  /** c stays subscribed and nothing sent to it is refused. */
  ghost predicate Unrefused(a: Region, m: Msg, b: Region, c: nat) {
    && c in a.subs && c in b.subs && (m.AddSubscriber? || m.RemoveSubscriber? ==> m.client != c)
    && !a.subs[c].behind && b.subs[c].refused == a.subs[c].refused
  }

  lemma TurnIds(a: Region, m: Msg, b: Region, c: nat)
    requires Coherent(a.proxy) && Next(a, m, b) && Unrefused(a, m, b, c) && NoSyncs(a.proxy.batch)
    ensures NoSyncs(b.proxy.batch) && !b.subs[c].behind
    ensures KnownTo(b, c) == KnownTo(a, c) + MarkerOf(m)
  {
    match m
    case PtyData(es) =>
      RecordAllCoherent(a.proxy, es);
      assert NoSyncs(a.proxy.batch + es);
      BroadcastIds(Fed(a, es), b, c);
    case SyncMarker(id) =>
      BroadcastIds(a.(proxy := Marked(a.proxy, id)), b, c);
      assert IdsIn(a.subs[c].accepted) + (a.proxy.pendingSyncs + [id]) == Known(a, a.subs[c]) + [id];
    case CatchupTimer => assert TimerServed(a, a.subs[c], b.subs[c]);
    case _ =>
  }

  lemma {:induction false} BatchHasNoSyncs(states: seq<Region>, msgs: seq<Msg>, n: nat)
    requires IsRun(states, msgs) && n <= |msgs|
    ensures NoSyncs(states[n].proxy.batch)
  {
    if n > 0 {
      var a, m := states[n - 1], msgs[n - 1];
      BatchHasNoSyncs(states, msgs, n - 1);
      RunKeeps(states, msgs, n - 1);
      if m.PtyData? {
        RecordAllCoherent(a.proxy, m.events);
        assert NoSyncs(a.proxy.batch + m.events);
        FlushedIds(Fed(a, m.events).proxy);
      } else if m.SyncMarker? {
        FlushedIds(Marked(a.proxy, m.id));
      }
    }
  }

  ghost predicate UnrefusedFrom(states: seq<Region>, msgs: seq<Msg>, k: nat, n: nat, c: nat) {
    k <= n <= |msgs| && |states| == |msgs| + 1 &&
    forall i :: k <= i < n ==> Unrefused(states[i], msgs[i], states[i + 1], c)
  }

  function MarkerOf(m: Msg): seq<string> { if m.SyncMarker? then [m.id] else [] }

  lemma EmissionsNext(msgs: seq<Msg>, k: nat, n: nat)
    requires k < n <= |msgs|
    ensures Emissions(msgs[k..n]) == Emissions(msgs[k..n - 1]) + MarkerOf(msgs[n - 1])
  {
    assert msgs[k..n][..n - 1 - k] == msgs[k..n - 1] && msgs[k..n][n - 1 - k] == msgs[n - 1];
  }

  lemma {:induction false} Accumulate(known: seq<seq<string>>, msgs: seq<Msg>, k: nat, n: nat)
    requires k <= n <= |msgs| && |known| == |msgs| + 1
    requires forall i :: k <= i < n ==> known[i + 1] == known[i] + MarkerOf(msgs[i])
    ensures known[n] == known[k] + Emissions(msgs[k..n])
    decreases n - k
  {
    if k == n {
      assert msgs[k..n] == [];
    } else {
      assert known[n] == known[n - 1] + MarkerOf(msgs[n - 1]);
      Accumulate(known, msgs, k, n - 1);
      EmissionsNext(msgs, k, n);
      Regrouped(known[k], Emissions(msgs[k..n - 1]), MarkerOf(msgs[n - 1]), Emissions(msgs[k..n]));
    }
  }

  lemma Regrouped(before: seq<string>, sent: seq<string>, last: seq<string>, all: seq<string>)
    requires all == sent + last
    ensures before + all == before + sent + last
  {
  }

  lemma NextMarker(states: seq<Region>, msgs: seq<Msg>, n: nat, c: nat)
    requires IsRun(states, msgs) && n < |msgs| && Unrefused(states[n], msgs[n], states[n + 1], c)
    ensures var m := msgs[n];
            && !states[n + 1].subs[c].behind
            && KnownTo(states[n + 1], c) == KnownTo(states[n], c) + MarkerOf(m)
  {
    BatchHasNoSyncs(states, msgs, n);
    RunKeeps(states, msgs, n);
    TurnIds(states[n], msgs[n], states[n + 1], c);
  }

  /** Every turn of the stretch adds its own marker, if it has one. */
  ghost predicate TurnsMark(states: seq<Region>, msgs: seq<Msg>, k: nat, n: nat, c: nat) {
    k <= n <= |msgs| && |states| == |msgs| + 1 &&
    forall i :: k <= i < n ==> KnownTo(states[i + 1], c) == KnownTo(states[i], c) + MarkerOf(msgs[i])
  }

  lemma EachTurnMarks(states: seq<Region>, msgs: seq<Msg>, k: nat, n: nat, c: nat)
    requires IsRun(states, msgs) && UnrefusedFrom(states, msgs, k, n, c)
    ensures TurnsMark(states, msgs, k, n, c)
  {
    forall i | k <= i < n ensures KnownTo(states[i + 1], c) == KnownTo(states[i], c) + MarkerOf(msgs[i]) {
      NextMarker(states, msgs, i, c);
    }
  }

  lemma KnownAccumulates(states: seq<Region>, msgs: seq<Msg>, k: nat, n: nat, c: nat)
    requires TurnsMark(states, msgs, k, n, c)
    ensures KnownTo(states[n], c) == KnownTo(states[k], c) + Emissions(msgs[k..n])
  {
    Accumulate(seq(|states|, i requires 0 <= i < |states| => KnownTo(states[i], c)), msgs, k, n);
  }

  /**
   Main result: over any stretch of a run in which nothing sent to a subscriber
   is refused, the markers it has read and those still waiting are the ones
   from before followed by the ones emitted since, each once and in order.
   */
  lemma MarkersArrive(states: seq<Region>, msgs: seq<Msg>, k: nat, n: nat, c: nat)
    requires IsRun(states, msgs) && UnrefusedFrom(states, msgs, k, n, c)
    ensures KnownTo(states[n], c) == KnownTo(states[k], c) + Emissions(msgs[k..n])
  {
    EachTurnMarks(states, msgs, k, n, c);
    KnownAccumulates(states, msgs, k, n, c);
  }

  // ── Newcomers ──────────────────────────────────────────────────────────────

  /** A newcomer with room for both its frames is sent the recent markers at once. */
  lemma JoinIds(a: Region, s: Sub, t: Sub)
    requires Joined(a, s, t) && t.refused == s.refused
    ensures IdsIn(t.accepted) == IdsIn(s.accepted) + a.proxy.allSyncs
  {
    var mid :| JoinedVia(a, s, mid, t);
    BacklogIds(s.accepted, SnapshotFrame(a, [], false), a.proxy.allSyncs);
    assert a.proxy.allSyncs != [] ==> t.accepted == mid.accepted + [BacklogFrame(a)];
    assert a.proxy.allSyncs == [] ==> t.accepted == mid.accepted;
  }

  lemma BacklogIds(fs: seq<Frame>, first: Frame, ids: seq<string>)
    requires first.ScreenUpdate?
    ensures IdsIn(fs + [first]) == IdsIn(fs)
    ensures IdsIn(fs + [first] + [TerminalEvents(SyncEvents(ids))]) == IdsIn(fs) + ids
  {
    IdsInOne(first);
    IdsInAppend(fs, [first]);
    EventsThenMarkers([], ids);
    assert [] + SyncEvents(ids) == SyncEvents(ids);
    IdsInOne(TerminalEvents(SyncEvents(ids)));
    IdsInAppend(fs + [first], [TerminalEvents(SyncEvents(ids))]);
  }

  /** The newest marker still waiting is among the recent ones. */
  ghost predicate WaitingIsRecent(p: Proxy) {
    p.pendingSyncs != [] ==> p.allSyncs != [] && p.allSyncs[|p.allSyncs| - 1] == p.pendingSyncs[|p.pendingSyncs| - 1]
  }

  lemma {:induction false} RunKeepsRecent(states: seq<Region>, msgs: seq<Msg>, n: nat)
    requires IsRun(states, msgs) && n <= |msgs|
    ensures WaitingIsRecent(states[n].proxy)
  {
    if n > 0 {
      RunKeepsRecent(states, msgs, n - 1);
      if msgs[n - 1].PtyData? {
        RecordAllKeepsMarkers(states[n - 1].proxy, msgs[n - 1].events);
      }
    }
  }

  lemma {:induction false} RecordAllKeepsMarkers(p: Proxy, es: seq<Event>)
    ensures var q := RecordAll(p, es); q.pendingSyncs == p.pendingSyncs && q.allSyncs == p.allSyncs
    decreases |es|
  {
    if es != [] {
      RecordAllKeepsMarkers(Recorded(p, es[0]), es[1..]);
    }
  }

  /**
   Whether each marker reaches a newcomer once: given that the recent markers
   and the later ones are all different, it does exactly when none was waiting
   when the client joined. The ones that were are sent to it again.
   */
  lemma NewcomerReadsOnceIff(states: seq<Region>, msgs: seq<Msg>, k: nat, n: nat, c: nat, base: seq<string>)
    requires IsRun(states, msgs) && UnrefusedFrom(states, msgs, k + 1, n, c)
    requires c in states[k + 1].subs && states[k + 1].proxy == states[k].proxy
    requires IdsIn(states[k + 1].subs[c].accepted) == base + states[k].proxy.allSyncs
    requires Distinct(base + states[k].proxy.allSyncs + Emissions(msgs[k + 1..n]))
    ensures Distinct(KnownTo(states[n], c)) <==> states[k].proxy.pendingSyncs == []
  {
    MarkersArrive(states, msgs, k + 1, n, c);
    RunKeepsRecent(states, msgs, k);
    ReadsOnceIff(states[k], states[k + 1], c, base, Emissions(msgs[k + 1..n]), KnownTo(states[n], c));
  }

  lemma ReadsOnceIff(a: Region, b: Region, c: nat, base: seq<string>, later: seq<string>, known: seq<string>)
    requires c in b.subs && b.proxy == a.proxy && IdsIn(b.subs[c].accepted) == base + a.proxy.allSyncs
    requires WaitingIsRecent(a.proxy) && Distinct(base + a.proxy.allSyncs + later) && known == KnownTo(b, c) + later
    ensures Distinct(known) <==> a.proxy.pendingSyncs == []
  {
    SentAgainIff(base + a.proxy.allSyncs, a.proxy.pendingSyncs, later);
  }

  /** The failing input: a client joins while the region's first marker waits behind a synchronized batch. */
  lemma WaitingMarkerIsSentTwice(a: Region, t: Sub, id: string)
    requires a.proxy.pendingSyncs == [id] == a.proxy.allSyncs
    requires Joined(a, Sub([], false, 0, 0), t) && t.refused == 0
    ensures Known(a, t) == [id, id]
  {
    JoinIds(a, Sub([], false, 0, 0), t);
    assert IdsIn([]) + [id] == [id];
  }

  lemma SentAgainIff(read: seq<string>, waiting: seq<string>, later: seq<string>)
    requires Distinct(read + later)
    requires waiting != [] ==> read != [] && read[|read| - 1] == waiting[|waiting| - 1]
    ensures Distinct(read + waiting + later) <==> waiting == []
  {
    var all := read + waiting + later;
    if waiting == [] {
      assert all == read + later;
    } else {
      assert all[|read| - 1] == all[|read| + |waiting| - 1];
    }
  }
}
