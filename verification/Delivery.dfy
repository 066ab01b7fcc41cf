/**
 Terminal delivery for one region (internal/server/actor.go, internal/tui/terminal.go)
 as a state machine: the server's screen is the log of operations applied to
 it, a snapshot carries a prefix of that log, and every send may be refused.
 */
module Delivery {
  import opened Capture
  import opened Options
  import opened Scrollback

  /** A message queued for a client. screen is the log of the operations the snapshot shows. */
  datatype Frame =
    | ScreenUpdate(screen: seq<Event>, delta: seq<Row>, scrollback: nat, total: nat, desync: bool)
    | TerminalEvents(events: seq<Event>)
    | Foreign

  /** The events that change the screen. */
  function ScreenOps(es: seq<Event>): seq<Event> {
    if es == [] then []
    else ScreenOps(es[..|es| - 1]) + (if es[|es| - 1].Bell? || es[|es| - 1].Sync? then [] else [es[|es| - 1]])
  }

  lemma {:induction false} ScreenOpsAppend(a: seq<Event>, b: seq<Event>)
    ensures ScreenOps(a + b) == ScreenOps(a) + ScreenOps(b)
  {
    if b == [] {
      assert a + b == a;
    } else {
      assert (a + b)[..|a + b| - 1] == a + b[..|b| - 1];
      ScreenOpsAppend(a, b[..|b| - 1]);
    }
  }

  lemma {:induction false} BellsShowNothing(b: seq<Event>)
    ensures ScreenOps(Bells(b)) == []
  {
    if b != [] {
      BellsShowNothing(b[..|b| - 1]);
      ScreenOpsAppend(Bells(b[..|b| - 1]), if b[|b| - 1].Bell? then [Bell] else []);
      assert [Bell][..0] == [];
    }
  }

  function SyncEvents(ids: seq<string>): seq<Event> {
    seq(|ids|, i requires 0 <= i < |ids| => Sync(ids[i]))
  }

  lemma {:induction false} SyncsShowNothing(es: seq<Event>)
    requires forall i :: 0 <= i < |es| ==> es[i].Sync?
    ensures ScreenOps(es) == []
  {
    if es != [] {
      SyncsShowNothing(es[..|es| - 1]);
    }
  }

  /** The client's screen after the accepted frames: none before the first snapshot. */
  function View(fs: seq<Frame>): Option<seq<Event>> {
    if fs == [] then None
    else
      var before := View(fs[..|fs| - 1]);
      match fs[|fs| - 1]
      case ScreenUpdate(screen, _, _, _, _) => Some(screen)
      case TerminalEvents(es) => if before.Some? then Some(before.value + ScreenOps(es)) else None
      case Foreign => before
  }

  function OpsIn(fs: seq<Frame>): seq<Event> {
    if fs == [] then []
    else OpsIn(fs[..|fs| - 1]) + (if fs[|fs| - 1].TerminalEvents? then ScreenOps(fs[|fs| - 1].events) else [])
  }

  ghost predicate IsLastUpdate(fs: seq<Frame>, k: int) {
    0 <= k < |fs| && fs[k].ScreenUpdate? && forall i :: k < i < |fs| ==> !fs[i].ScreenUpdate?
  }

  /** A screen is a snapshot followed by exactly the operations delivered after it. */
  lemma {:induction false} ViewDecomposes(fs: seq<Frame>) returns (k: nat)
    requires View(fs).Some?
    ensures IsLastUpdate(fs, k)
    ensures View(fs).value == fs[k].screen + OpsIn(fs[k + 1..])
  {
    var init := fs[..|fs| - 1];
    if fs[|fs| - 1].ScreenUpdate? {
      k := |fs| - 1;
      assert fs[k + 1..] == [];
    } else {
      k := ViewDecomposes(init);
      assert fs[k + 1..][..|fs| - k - 2] == init[k + 1..];
    }
  }

  // ── One subscriber ─────────────────────────────────────────────────────────

  /** accepted: the region's frames the client's queue has taken; refused: how many it has turned away. */
  datatype Sub = Sub(accepted: seq<Frame>, behind: bool, lastTotal: nat, refused: nat)

  function Refused(s: Sub): Sub { s.(behind := true, refused := s.refused + 1) }

  /** How one round of deliverFrames can go for a subscriber. The last two need it to be behind. */
  datatype Outcome =
    | Dropped          // the queue had no room for the frame
    | Landed           // the frame was queued, with no catch-up tried
    | CatchupDropped   // the frame was queued, the catch-up snapshot after it was not
    | CaughtUp         // the frame and the catch-up snapshot were both queued

  predicate Possible(s: Sub, o: Outcome) { s.behind || o.Dropped? || o.Landed? }

  function Attempt(s: Sub, o: Outcome, frame: Frame, catchup: Frame, total: nat): Sub {
    match o
    case Dropped => Refused(s)
    case Landed => s.(accepted := s.accepted + [frame], lastTotal := total)
    case CatchupDropped => s.(accepted := s.accepted + [frame], lastTotal := total, refused := s.refused + 1)
    case CaughtUp => s.(accepted := s.accepted + [frame] + [catchup], lastTotal := total, behind := false)
  }

  ghost predicate Attempted(s: Sub, t: Sub, frame: Frame, catchup: Frame, total: nat) {
    exists o :: Possible(s, o) && t == Attempt(s, o, frame, catchup, total)
  }

  /** Rows of history with sequence numbers in [since, upto), as far as they are retained. */
  function ScrollbackSince(h: Hist, since: nat, upto: nat): seq<Row> {
    var lo := if since < h.first then h.first else since;
    var hi := if upto > h.total then h.total else upto;
    if upto <= since || hi <= lo || hi - h.first > |h.items| then []
    else h.items[lo - h.first..hi - h.first]
  }

  // ── The region ─────────────────────────────────────────────────────────────

  /** screen: all screen operations so far; rows: all rows ever scrolled off; armed: the catch-up timer is pending. */
  datatype Region = Region(
    proxy: Proxy, screen: seq<Event>, hist: Hist, rows: seq<Row>, subs: map<nat, Sub>, armed: bool)

  datatype Msg =
    | PtyData(events: seq<Event>)
    | SyncMarker(id: string)
    | AddSubscriber(client: nat)
    | RemoveSubscriber(client: nat)
    | CatchupTimer

  function SnapshotFrame(a: Region, delta: seq<Row>, desync: bool): Frame {
    ScreenUpdate(a.screen, delta, |a.hist.items|, a.hist.total, desync)
  }

  function CatchupFrame(a: Region): Frame { SnapshotFrame(a, [], true) }

  function DeltaFrame(a: Region, s: Sub): Frame {
    SnapshotFrame(a, ScrollbackSince(a.hist, s.lastTotal, a.hist.total), false)
  }

  function EventsFrame(out: Flushed): Frame { TerminalEvents(out.events + SyncEvents(out.syncs)) }

  predicate Silent(out: Flushed) { !out.needsSnapshot && out.events == [] && out.syncs == [] }

  /** What broadcastToSubscribers does to one subscriber of region a for flush result out. */
  ghost predicate Broadcast(a: Region, out: Flushed, s: Sub, t: Sub) {
    if Silent(out) then t == s
    else if !out.needsSnapshot then Attempted(s, t, EventsFrame(out), CatchupFrame(a), a.hist.total)
    else exists mid :: SnapshotThenTrailing(a, out, s, mid, t)
  }

  ghost predicate SnapshotThenTrailing(a: Region, out: Flushed, s: Sub, mid: Sub, t: Sub) {
    && Attempted(s, mid, DeltaFrame(a, s), CatchupFrame(a), a.hist.total)
    && if out.events == [] && out.syncs == [] then t == mid
       else Attempted(mid, t, EventsFrame(out), CatchupFrame(a), a.hist.total)
  }

  /** How the repair timer can go for a subscriber; anything but leaving it alone needs it to be behind. */
  datatype Repair =
    | LeftAlone       // not behind, no room, or shed by the circuit breaker
    | RepairDropped
    | Repaired

  function AfterRepair(s: Sub, o: Repair, catchup: Frame, total: nat): Sub {
    match o
    case LeftAlone => s
    case RepairDropped => s.(refused := s.refused + 1)
    case Repaired => s.(accepted := s.accepted + [catchup], behind := false, lastTotal := total)
  }

  /** catchupBehindSubscribers: a behind subscriber may get a snapshot; nobody else is touched. */
  ghost predicate TimerServed(a: Region, s: Sub, t: Sub) {
    exists o: Repair :: (s.behind || o.LeftAlone?) && t == AfterRepair(s, o, CatchupFrame(a), a.hist.total)
  }

  /**
   The frames of a new subscriber: a snapshot, then the recent sync markers if there are any. Either
   may be refused.
   */
  ghost predicate Joined(a: Region, s: Sub, t: Sub) {
    exists mid :: JoinedVia(a, s, mid, t)
  }

  predicate JoinedVia(a: Region, s: Sub, mid: Sub, t: Sub) {
    var u := mid.(lastTotal := a.hist.total);
    && (mid == Refused(s) || mid == s.(accepted := s.accepted + [SnapshotFrame(a, [], false)]))
    && if a.proxy.allSyncs == [] then t == u
       else t == u.(refused := u.refused + 1) || t == u.(accepted := u.accepted + [BacklogFrame(a)])
  }

  function BacklogFrame(a: Region): Frame { TerminalEvents(SyncEvents(a.proxy.allSyncs)) }

  ghost predicate AnyBehind(subs: map<nat, Sub>) {
    exists c :: c in subs && subs[c].behind
  }

  function RowsOf(es: seq<Event>): seq<Row> {
    if es == [] then [] else (if es[0].Screen? then es[0].rows else []) + RowsOf(es[1..])
  }

  function RecordAll(p: Proxy, es: seq<Event>): Proxy
    decreases |es|
  {
    if es == [] then p else RecordAll(Recorded(p, es[0]), es[1..])
  }

  /** The region after feeding terminal output, before anything is broadcast. */
  function Fed(a: Region, es: seq<Event>): Region {
    a.(proxy := RecordAll(a.proxy, es), screen := a.screen + ScreenOps(es),
       hist := ApplyEvents(a.hist, es), rows := a.rows + RowsOf(es))
  }

  /** The region after one recorded operation. */
  function FedOne(a: Region, e: Event): Region {
    a.(proxy := Recorded(a.proxy, e), screen := if e.Bell? || e.Sync? then a.screen else a.screen + [e],
       hist := ApplyEvent(a.hist, e), rows := if e.Screen? then a.rows + e.rows else a.rows)
  }

  lemma ScreenStep(screen: seq<Event>, e: Event, es: seq<Event>)
    ensures screen + ScreenOps([e] + es) == (if e.Bell? || e.Sync? then screen else screen + [e]) + ScreenOps(es)
  {
    ScreenOpsAppend([e], es);
    assert [e][..0] == [];
  }

  lemma FedStep(a: Region, e: Event, es: seq<Event>)
    ensures Fed(FedOne(a, e), es) == Fed(a, [e] + es)
  {
    assert ([e] + es)[1..] == es;
    ScreenStep(a.screen, e, es);
    assert FedOne(a, e).rows + RowsOf(es) == a.rows + RowsOf([e] + es);
  }

  lemma FedNext(a: Region, events: seq<Event>, i: nat)
    requires i < |events|
    ensures Fed(FedOne(a, events[i]), events[i + 1..]) == Fed(a, events[i..])
  {
    FedStep(a, events[i], events[i + 1..]);
    assert [events[i]] + events[i + 1..] == events[i..];
  }

  /** The timer is armed at the end of a turn if it was pending or someone is behind. */
  ghost function Armed(a: Region): Region { a.(armed := a.armed || AnyBehind(a.subs)) }

  /** The output turns of the actor: feed or mark, broadcast, arm. */
  lemma BroadcastTurn(a: Region, m: Msg, f: Region, g: Region)
    requires (m.PtyData? && f == Fed(a, m.events) && forall e :: e in m.events ==> !e.Sync?)
          || (m.SyncMarker? && f == a.(proxy := Marked(a.proxy, m.id)))
    requires AfterBroadcast(f, g) && g.armed == a.armed
    ensures Next(a, m, Armed(g))
  {
    var b := Armed(g);
    forall c | c in f.subs ensures Broadcast(f, FlushOutput(f.proxy), f.subs[c], b.subs[c]) {
      assert b.subs[c] == g.subs[c];
    }
    assert AfterBroadcast(f, b);
  }

  lemma TimerTurn(a: Region, g: Region)
    requires a.armed && g.(subs := a.subs) == a.(armed := false) && g.subs.Keys == a.subs.Keys
    requires forall c :: c in a.subs ==> TimerServed(a, a.subs[c], g.subs[c])
    ensures Next(a, CatchupTimer, Armed(g))
  {
  }

  lemma JoinTurn(a: Region, c: nat, s: Sub, t: Sub)
    requires (c in a.subs ==> s == a.subs[c]) && Joined(a, s, t)
    ensures Next(a, AddSubscriber(c), Armed(a.(subs := a.subs[c := t])))
  {
    var b := Armed(a.(subs := a.subs[c := t]));
    assert Joined(a, s, b.subs[c]);
  }

  lemma LeaveTurn(a: Region, c: nat)
    ensures Next(a, RemoveSubscriber(c), Armed(a.(subs := a.subs - {c})))
  {
  }

  ghost predicate AfterBroadcast(a: Region, b: Region) {
    && a.proxy.syncEnd <= |a.proxy.batch|
    && b.(subs := a.subs, armed := a.armed) == a.(proxy := AfterFlush(a.proxy))
    && b.subs.Keys == a.subs.Keys
    && forall c :: c in a.subs ==> Broadcast(a, FlushOutput(a.proxy), a.subs[c], b.subs[c])
  }

  /** One turn of the actor's loop: a message or the timer, then arming the timer if someone is behind. */
  ghost predicate Next(a: Region, m: Msg, b: Region) {
    && (b.armed <==> AnyBehind(b.subs) || (a.armed && !m.CatchupTimer?))
    && match m
       case PtyData(es) => (forall e :: e in es ==> !e.Sync?) && AfterBroadcast(Fed(a, es), b)
       case SyncMarker(id) => AfterBroadcast(a.(proxy := Marked(a.proxy, id)), b)
       case AddSubscriber(c) =>
         && b.(subs := a.subs, armed := a.armed) == a
         && b.subs.Keys == a.subs.Keys + {c}
         && (forall d :: d in a.subs && d != c ==> b.subs[d] == a.subs[d])
         && (exists s: Sub :: (c in a.subs ==> s == a.subs[c]) && Joined(a, s, b.subs[c]))
       case RemoveSubscriber(c) => b.(armed := a.armed) == a.(subs := a.subs - {c})
       case CatchupTimer =>
         && a.armed
         && b.(subs := a.subs, armed := a.armed) == a
         && b.subs.Keys == a.subs.Keys
         && forall c :: c in a.subs ==> TimerServed(a, a.subs[c], b.subs[c])
  }

  // ── No gap, no repeat ──────────────────────────────────────────────────────

  /** A subscriber that is not behind shows a prefix of the log that misses at most operations still held. */
  predicate InSync(a: Region, s: Sub) {
    !s.behind ==>
      var v := View(s.accepted);
      v.Some? && v.value <= a.screen && |a.screen| <= |v.value| + |ScreenOps(a.proxy.batch)|
  }

  /** Operations are held between turns only inside an open synchronized batch. */
  ghost predicate HeldOpen(p: Proxy) {
    Coherent(p) && (p.batch == [] || SyncOpen(p.batch))
  }

  /** The log up to the last flush: all of it but the operations still held. */
  function Released(a: Region): seq<Event> {
    var n := |ScreenOps(a.proxy.batch)|;
    a.screen[..if n <= |a.screen| then |a.screen| - n else 0]
  }

  /** The operations held are the last ones of the log. */
  predicate HeldLast(a: Region) {
    a.screen == Released(a) + ScreenOps(a.proxy.batch)
  }

  ghost predicate Inv(a: Region) {
    && HeldOpen(a.proxy)
    && HeldLast(a)
    && (AnyBehind(a.subs) ==> a.armed)
    && forall c :: c in a.subs ==> InSync(a, a.subs[c])
  }

  lemma {:induction false} RecordAllCoherent(p: Proxy, es: seq<Event>)
    requires Coherent(p)
    ensures Coherent(RecordAll(p, es))
    ensures RecordAll(p, es).batch == p.batch + es
    ensures RecordAll(p, es).pendingSyncs == p.pendingSyncs
    decreases |es|
  {
    if es != [] {
      RecordedCoherent(p, es[0]);
      RecordAllCoherent(Recorded(p, es[0]), es[1..]);
    }
  }

  /** Once a synchronized batch is open, it can only be closed by an end that a flush turns into a snapshot. */
  lemma {:induction false} OpenBatchEndsInSnapshot(held: seq<Event>, more: seq<Event>)
    requires SyncOpen(held)
    ensures SyncOpen(held + more) || SyncEnd(held + more) >= |held|
  {
    if more == [] {
      assert held + more == held;
    } else {
      var all, init := held + more, held + more[..|more| - 1];
      assert all[..|all| - 1] == init;
      OpenBatchEndsInSnapshot(held, more[..|more| - 1]);
    }
  }

  lemma ViewOne(fs: seq<Frame>, f: Frame)
    ensures View(fs + [f]) ==
      match f
      case ScreenUpdate(screen, _, _, _, _) => Some(screen)
      case TerminalEvents(es) => if View(fs).Some? then Some(View(fs).value + ScreenOps(es)) else None
      case Foreign => View(fs)
  {
    assert (fs + [f])[..|fs|] == fs;
  }

  /** An attempt leaves the client behind, or showing what the frame shows, or freshly caught up. */
  lemma AttemptShows(a: Region, s: Sub, t: Sub, frame: Frame, shown: Option<seq<Event>>)
    requires Attempted(s, t, frame, CatchupFrame(a), a.hist.total)
    requires !s.behind ==> View(s.accepted + [frame]) == shown
    ensures t.behind || View(t.accepted) == shown || View(t.accepted) == Some(a.screen)
    ensures s.behind && !t.behind ==> View(t.accepted) == Some(a.screen)
  {
    ViewOne(s.accepted + [frame], CatchupFrame(a));
  }

  lemma EventsShow(s: Sub, out: Flushed)
    requires View(s.accepted).Some?
    ensures View(s.accepted + [EventsFrame(out)]) == Some(View(s.accepted).value + ScreenOps(out.events))
  {
    ViewOne(s.accepted, EventsFrame(out));
    ScreenOpsAppend(out.events, SyncEvents(out.syncs));
    SyncsShowNothing(SyncEvents(out.syncs));
    assert ScreenOps(out.events) + [] == ScreenOps(out.events);
  }

  lemma TrailingShows(a: Region, out: Flushed, s: Sub, t: Sub)
    requires Attempted(s, t, EventsFrame(out), CatchupFrame(a), a.hist.total) && ScreenOps(out.events) == []
    requires !s.behind ==> View(s.accepted) == Some(a.screen)
    ensures !t.behind ==> View(t.accepted) == Some(a.screen)
  {
    if !s.behind {
      EventsShow(s, out);
      assert a.screen + [] == a.screen;
      AttemptShows(a, s, t, EventsFrame(out), Some(a.screen));
    } else {
      AttemptShows(a, s, t, EventsFrame(out), None);
    }
  }

  lemma SnapshotBroadcastShows(a: Region, out: Flushed, s: Sub, t: Sub)
    requires Broadcast(a, out, s, t) && out.needsSnapshot && ScreenOps(out.events) == []
    ensures !t.behind ==> View(t.accepted) == Some(a.screen)
  {
    var mid :| SnapshotThenTrailing(a, out, s, mid, t);
    var first := DeltaFrame(a, s);
    ViewOne(s.accepted, first);
    AttemptShows(a, s, mid, first, Some(a.screen));
    if t != mid {
      TrailingShows(a, out, mid, t);
    }
  }

  /** A flush of held + es, on the region a that was fed es, leaves a subscriber in sync. */
  lemma BroadcastKeepsSync(a0: Region, a: Region, es: seq<Event>, s: Sub, t: Sub)
    requires HeldOpen(a0.proxy) && InSync(a0, s)
    requires a.screen == a0.screen + ScreenOps(es)
    requires Coherent(a.proxy) && a.proxy.batch == a0.proxy.batch + es
    requires Broadcast(a, FlushOutput(a.proxy), s, t)
    ensures InSync(a.(proxy := AfterFlush(a.proxy)), t)
  {
    var held, out := a0.proxy.batch, FlushOutput(a.proxy);
    ScreenOpsAppend(held, es);
    if Holds(a.proxy) {
      assert Silent(out);
    } else if out.needsSnapshot {
      if !a.proxy.syncMode {
        BellsShowNothing(a.proxy.batch[a.proxy.syncEnd..]);
      }
      SnapshotBroadcastShows(a, out, s, t);
    } else {
      if held != [] {
        OpenBatchEndsInSnapshot(held, es);
      }
      assert held == [] && out.events == es by { assert [] + es == es; }
      if !Silent(out) {
        if !s.behind {
          assert View(s.accepted).value == a0.screen;
          EventsShow(s, out);
          AttemptShows(a, s, t, EventsFrame(out), Some(a.screen));
        } else {
          AttemptShows(a, s, t, EventsFrame(out), None);
        }
      }
    }
  }

  lemma SuffixGrows<T>(front: seq<T>, held: seq<T>, more: seq<T>, heldNow: seq<T>, before: seq<T>, now: seq<T>)
    requires before == front + held && now == before + more && heldNow == held + more
    ensures |heldNow| <= |now| && now[..|now| - |heldNow|] == front && now == front + heldNow
  {
  }

  lemma HeldLastKept(a0: Region, a: Region, es: seq<Event>)
    requires HeldLast(a0) && a.screen == a0.screen + ScreenOps(es)
    requires a.proxy.batch == a0.proxy.batch + es || a.proxy.batch == []
    ensures HeldLast(a)
  {
    if a.proxy.batch == [] {
      assert a.screen[..|a.screen|] + [] == a.screen;
    } else {
      ScreenOpsAppend(a0.proxy.batch, es);
      SuffixGrows(Released(a0), ScreenOps(a0.proxy.batch), ScreenOps(es), ScreenOps(a.proxy.batch), a0.screen,
        a.screen);
    }
  }

  lemma AfterBroadcastKeeps(a0: Region, a: Region, es: seq<Event>, b: Region)
    requires Inv(a0) && a.subs == a0.subs && a.screen == a0.screen + ScreenOps(es)
    requires Coherent(a.proxy) && a.proxy.batch == a0.proxy.batch + es
    requires AfterBroadcast(a, b) && (AnyBehind(b.subs) ==> b.armed)
    ensures Inv(b)
  {
    FlushCoherent(a.proxy);
    HeldLastKept(a0, b, es);
    forall c | c in b.subs ensures InSync(b, b.subs[c]) {
      assert c in a.subs && c in a0.subs;
      BroadcastKeepsSync(a0, a, es, a.subs[c], b.subs[c]);
    }
  }

  lemma JoinShows(a: Region, s: Sub, t: Sub)
    requires Joined(a, s, t)
    ensures !t.behind ==> View(t.accepted) == Some(a.screen)
  {
    var mid :| JoinedVia(a, s, mid, t);
    ViewOne(s.accepted, SnapshotFrame(a, [], false));
    ViewOne(mid.accepted, BacklogFrame(a));
    SyncsShowNothing(SyncEvents(a.proxy.allSyncs));
    assert a.screen + [] == a.screen;
  }

  lemma NextKeeps(a: Region, m: Msg, b: Region)
    requires Inv(a) && Next(a, m, b)
    ensures Inv(b)
    ensures a.screen <= b.screen
  {
    match m
    case PtyData(es) =>
      RecordAllCoherent(a.proxy, es);
      AfterBroadcastKeeps(a, Fed(a, es), es, b);
    case SyncMarker(id) =>
      assert a.proxy.batch + [] == a.proxy.batch && a.screen + ScreenOps([]) == a.screen;
      AfterBroadcastKeeps(a, a.(proxy := Marked(a.proxy, id)), [], b);
    case AddSubscriber(c) =>
      forall d | d in b.subs ensures InSync(b, b.subs[d]) {
        if d == c {
          var s: Sub :| (c in a.subs ==> s == a.subs[c]) && Joined(a, s, b.subs[c]);
          JoinShows(a, s, b.subs[c]);
        } else {
          assert InSync(a, a.subs[d]);
        }
      }
    case RemoveSubscriber(c) =>
      forall d | d in b.subs ensures InSync(b, b.subs[d]) {
        assert InSync(a, a.subs[d]);
      }
    case CatchupTimer =>
      forall c | c in b.subs ensures InSync(b, b.subs[c]) {
        assert InSync(a, a.subs[c]) && TimerServed(a, a.subs[c], b.subs[c]);
        ViewOne(a.subs[c].accepted, CatchupFrame(a));
      }
  }

  ghost predicate Init(a: Region) {
    a.proxy == FRESH && a.screen == [] && a.rows == [] && a.hist == EmptyHist(a.hist.max) && a.hist.max > 0
    && a.subs == map[] && !a.armed
  }

  ghost predicate IsRun(states: seq<Region>, msgs: seq<Msg>) {
    && |states| == |msgs| + 1
    && Init(states[0])
    && forall i :: 0 <= i < |msgs| ==> Next(states[i], msgs[i], states[i + 1])
  }

  lemma {:induction false} RunKeeps(states: seq<Region>, msgs: seq<Msg>, n: nat)
    requires IsRun(states, msgs) && n <= |msgs|
    ensures Inv(states[n])
  {
    if n > 0 {
      RunKeeps(states, msgs, n - 1);
      NextKeeps(states[n - 1], msgs[n - 1], states[n]);
    }
  }

  lemma ShownBetween(a: Region, s: Sub)
    requires HeldLast(a) && InSync(a, s) && !s.behind
    ensures View(s.accepted).Some? && Released(a) <= View(s.accepted).value <= a.screen
  {
    Between(Released(a), ScreenOps(a.proxy.batch), View(s.accepted).value, a.screen);
  }

  lemma Between<T>(front: seq<T>, held: seq<T>, shown: seq<T>, all: seq<T>)
    requires all == front + held && shown <= all && |all| <= |shown| + |held|
    ensures front <= shown
  {
  }

  /**
   Main result: at every point of every run, a subscriber that is not behind
   has been handed a snapshot and then exactly the operations that followed it
   in the log, with no gap and no repeat, up to the last flush; operations are
   outstanding only while a synchronized batch is open. A subscriber that is
   behind has its repair timer pending.
   */
  lemma SubscriberSeesTheLog(states: seq<Region>, msgs: seq<Msg>, n: nat, c: nat) returns (k: nat)
    requires IsRun(states, msgs) && n <= |msgs| && c in states[n].subs
    ensures var a := states[n];
            var s := a.subs[c];
            && (s.behind ==> a.armed)
            && (!s.behind ==>
                  && IsLastUpdate(s.accepted, k)
                  && var shown := s.accepted[k].screen + OpsIn(s.accepted[k + 1..]);
                  && Released(a) <= shown <= a.screen
                  && a.screen == Released(a) + ScreenOps(a.proxy.batch)
                  && (a.proxy.batch != [] ==> SyncOpen(a.proxy.batch)))
  {
    RunKeeps(states, msgs, n);
    k := 0;
    if !states[n].subs[c].behind {
      ShownBetween(states[n], states[n].subs[c]);
      k := ViewDecomposes(states[n].subs[c].accepted);
    }
  }

  // ── What a subscriber is told about what it missed ─────────────────────────

  /** A snapshot that tells the client it has missed rows. */
  predicate TellsLoss(f: Frame) { f.ScreenUpdate? && f.desync }

  /** What was accepted in passing from s to t, when nothing was taken back. */
  function NewFrames(s: Sub, t: Sub): seq<Frame> {
    if |s.accepted| <= |t.accepted| then t.accepted[|s.accepted|..] else []
  }

  /**
   Being behind ends only with a snapshot that says so, and such a snapshot comes
   only after something was refused. It carries no rows of its own.
   */
  ghost predicate Told(a: Region, s: Sub, t: Sub) {
    && s.accepted <= t.accepted
    && (s.behind && !t.behind ==> exists i :: 0 <= i < |NewFrames(s, t)| && TellsLoss(NewFrames(s, t)[i]))
    && (forall i :: 0 <= i < |NewFrames(s, t)| && TellsLoss(NewFrames(s, t)[i]) ==>
          && (s.behind || s.refused < t.refused)
          && NewFrames(s, t)[i].delta == [] && NewFrames(s, t)[i].screen == a.screen)
    && (t.behind ==> s.behind || s.refused < t.refused)
    && s.refused <= t.refused
  }

  lemma ToldOne(a: Region, s: Sub, t: Sub, f: Frame)
    requires t.accepted == s.accepted + [f] && !TellsLoss(f) && t.behind == s.behind && s.refused <= t.refused
    ensures Told(a, s, t)
  {
    assert NewFrames(s, t) == [f];
  }

  lemma ToldNone(a: Region, s: Sub, t: Sub)
    requires t.accepted == s.accepted && s.refused <= t.refused && (s.behind ==> t.behind)
    requires t.behind ==> s.behind || s.refused < t.refused
    ensures Told(a, s, t)
  {
    assert NewFrames(s, t) == [];
  }

  lemma ToldLoss(a: Region, s: Sub, t: Sub, fs: seq<Frame>)
    requires s.behind && t.accepted == s.accepted + (fs + [CatchupFrame(a)]) && s.refused <= t.refused
    requires forall i :: 0 <= i < |fs| ==> !TellsLoss(fs[i])
    ensures Told(a, s, t)
  {
    assert NewFrames(s, t) == fs + [CatchupFrame(a)];
    assert TellsLoss((fs + [CatchupFrame(a)])[|fs|]);
  }

  lemma AttemptTold(a: Region, s: Sub, t: Sub, frame: Frame)
    requires Attempted(s, t, frame, CatchupFrame(a), a.hist.total) && !TellsLoss(frame)
    ensures Told(a, s, t)
  {
    var o :| Possible(s, o) && t == Attempt(s, o, frame, CatchupFrame(a), a.hist.total);
    match o
    case Dropped => ToldNone(a, s, t);
    case Landed => ToldOne(a, s, t, frame);
    case CatchupDropped => ToldOne(a, s, t, frame);
    case CaughtUp =>
      assert s.accepted + [frame] + [CatchupFrame(a)] == s.accepted + ([frame] + [CatchupFrame(a)]);
      ToldLoss(a, s, t, [frame]);
  }

  lemma ToldThen(a: Region, s: Sub, m: Sub, t: Sub)
    requires Told(a, s, m) && Told(a, m, t)
    ensures Told(a, s, t)
  {
    var x, y := NewFrames(s, m), NewFrames(m, t);
    assert NewFrames(s, t) == x + y;
    if s.behind && !t.behind {
      if m.behind {
        var i :| 0 <= i < |y| && TellsLoss(y[i]);
        assert (x + y)[|x| + i] == y[i];
      } else {
        var i :| 0 <= i < |x| && TellsLoss(x[i]);
        assert (x + y)[i] == x[i];
      }
    }
  }

  lemma BroadcastTold(a: Region, out: Flushed, s: Sub, t: Sub)
    requires Broadcast(a, out, s, t)
    ensures Told(a, s, t)
  {
    if Silent(out) {
      ToldNone(a, s, t);
    } else if !out.needsSnapshot {
      AttemptTold(a, s, t, EventsFrame(out));
    } else {
      var mid :| SnapshotThenTrailing(a, out, s, mid, t);
      AttemptTold(a, s, mid, DeltaFrame(a, s));
      if t != mid {
        AttemptTold(a, mid, t, EventsFrame(out));
        ToldThen(a, s, mid, t);
      }
    }
  }

  lemma JoinTold(a: Region, s: Sub, t: Sub)
    requires Joined(a, s, t)
    ensures Told(a, s, t) && (s.behind ==> t.behind)
  {
    var mid :| JoinedVia(a, s, mid, t);
    if mid == Refused(s) {
      ToldNone(a, s, mid);
    } else {
      ToldOne(a, s, mid, SnapshotFrame(a, [], false));
    }
    if t.accepted == mid.accepted {
      ToldNone(a, mid, t);
    } else {
      ToldOne(a, mid, t, BacklogFrame(a));
    }
    ToldThen(a, s, mid, t);
  }

  lemma TimerTold(a: Region, s: Sub, t: Sub)
    requires TimerServed(a, s, t)
    ensures Told(a, s, t)
  {
    if t.accepted == s.accepted {
      ToldNone(a, s, t);
    } else {
      assert s.accepted + [CatchupFrame(a)] == s.accepted + ([] + [CatchupFrame(a)]);
      ToldLoss(a, s, t, []);
    }
  }

  /**
   In every turn of the actor: a subscriber stops being behind only by accepting
   a snapshot marked as following a loss; a subscriber that is refused nothing
   and was not behind is sent none; and one falls behind only when refused.
   */
  lemma TurnTells(a: Region, m: Msg, b: Region, c: nat)
    requires Next(a, m, b) && c in a.subs && c in b.subs
    ensures Told(b, a.subs[c], b.subs[c])
  {
    var s, t := a.subs[c], b.subs[c];
    match m
    case PtyData(es) => BroadcastTold(Fed(a, es), FlushOutput(Fed(a, es).proxy), s, t);
    case SyncMarker(id) =>
      var f := a.(proxy := Marked(a.proxy, id));
      BroadcastTold(f, FlushOutput(f.proxy), s, t);
    case AddSubscriber(d) =>
      if d == c {
        JoinTold(a, s, t);
      } else {
        ToldNone(a, s, t);
      }
    case RemoveSubscriber(d) => ToldNone(a, s, t);
    case CatchupTimer => TimerTold(a, s, t);
  }

  /** A behind subscriber whose catch-up snapshot fits when the timer fires is repaired to the whole log at once. */
  lemma CatchupRepairs(a: Region, b: Region, c: nat)
    requires Inv(a) && Next(a, CatchupTimer, b) && c in a.subs && a.subs[c].behind && !b.subs[c].behind
    ensures View(b.subs[c].accepted) == Some(a.screen)
  {
    assert TimerServed(a, a.subs[c], b.subs[c]);
    ViewOne(a.subs[c].accepted, CatchupFrame(a));
  }
}
