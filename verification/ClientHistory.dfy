/**
 The client's scrollback while terminal updates arrive (internal/tui/terminal.go):
 how a snapshot's delta and replayed operations extend the local history, and
 when the rows keep the server's sequence numbers.
 */
module ClientHistory {
  import opened Capture
  import opened Scrollback
  import opened Delivery

  const CLIENT_HISTORY: nat := 10000

  /** Rows kept from before a snapshot: the server's count, when it reports one, limits them. */
  function Survivors(h: Hist, scrollback: nat): seq<Row> {
    if scrollback > 0 && |h.items| > scrollback then h.items[..scrollback] else h.items
  }

  /** The local history after a screen update, as handleScreenUpdate rebuilds it. */
  function AfterUpdate(h: Hist, f: Frame): Hist
    requires f.ScreenUpdate?
  {
    var prev := Survivors(h, f.scrollback);
    var bridges := !f.desync && f.total > h.total && |f.delta| == f.total - h.total;
    var blank := WithTotal(EmptyHist(CLIENT_HISTORY), if bridges then f.total else h.total);
    var filled := Prepend(blank, prev + f.delta);
    if prev == [] then filled else filled.(first := h.first)
  }

  /**
   A snapshot moves the client's count only when it says that no rows were lost
   and its delta is exactly the rows from that count to its own.
   */
  lemma CountMovesIff(h: Hist, f: Frame)
    requires f.ScreenUpdate?
    ensures AfterUpdate(h, f).total ==
              if !f.desync && f.total > h.total && |f.delta| == f.total - h.total then f.total else h.total
  {
  }

  /** With room for them, the rows are those the server still has, then the delta. */
  lemma RowsSurvive(h: Hist, f: Frame)
    requires f.ScreenUpdate?
    requires var k := if f.scrollback > 0 && |h.items| > f.scrollback then f.scrollback else |h.items|;
             k + |f.delta| <= CLIENT_HISTORY
    ensures var k := if f.scrollback > 0 && |h.items| > f.scrollback then f.scrollback else |h.items|;
            AfterUpdate(h, f).items == h.items[..k] + f.delta && (k > 0 ==> AfterUpdate(h, f).first == h.first)
  {
    var rows := Survivors(h, f.scrollback) + f.delta;
    assert rows[|rows| - |rows|..] + [] == rows;
  }

  function AfterFrame(h: Hist, f: Frame): Hist {
    match f
    case ScreenUpdate(_, _, _, _, _) => AfterUpdate(h, f)
    case TerminalEvents(es) => ApplyEvents(h, es)
    case Foreign => h
  }

  function AfterFrames(h: Hist, fs: seq<Frame>): Hist {
    if fs == [] then h else AfterFrame(AfterFrames(h, fs[..|fs| - 1]), fs[|fs| - 1])
  }

  /**
   A caller can check this before applying an update: an empty local history, or
   one the server's count does not cut short and that has room for the delta.
   */
  predicate Fits(h: Hist, f: Frame)
    requires f.ScreenUpdate?
  {
    h.items == [] || (Survivors(h, f.scrollback) == h.items && |h.items| + |f.delta| <= CLIENT_HISTORY)
  }

  /**
   A bridging update of a well-labelled history ends at the server's newest row
   exactly when it fits: a history longer than the server's loses its newest
   rows, and one that overflows keeps the label of a row it dropped.
   */
  lemma UpdateLabelsIff(h: Hist, f: Frame)
    requires f.ScreenUpdate? && !f.desync && Contiguous(h)
    requires f.total < TWO_TO_THE_64 && f.total == h.total + |f.delta|
    ensures var r := AfterUpdate(h, f);
            Contiguous(r) && r.total == f.total <==> Fits(h, f)
  {
    var prev := Survivors(h, f.scrollback);
    var all := prev + f.delta;
    var blank := WithTotal(EmptyHist(CLIENT_HISTORY), f.total);
    var k := Kept(blank, |all|);
    assert prev == h.items || |prev| < |h.items|;
    if h.items == [] {
      assert all == f.delta;
      assert (f.total - k) % TWO_TO_THE_64 == f.total - k;
    }
  }

  /** The failing input: a client with more history than the server keeps mislabels the rows of a snapshot. */
  lemma LongerHistoryIsMislabelled()
    ensures var h := Hist(["a", "b"], 0, 2, CLIENT_HISTORY);
            var r := AfterUpdate(h, ScreenUpdate([], ["c"], 1, 3, false));
            r.total == 3 && r.items == ["a", "c"] && r.first == 0 && !Contiguous(r)
  {
    var prev := Survivors(Hist(["a", "b"], 0, 2, CLIENT_HISTORY), 1);
    assert prev == ["a"];
    var all := prev + ["c"];
    assert all[0..] == ["a", "c"] && ["a", "c"] + [] == ["a", "c"];
  }

  /** A bridging update that fits makes the local history the longer slice of the server's row log. */
  lemma UpdateSlices(log: seq<Row>, h: Hist, f: Frame)
    requires f.ScreenUpdate? && !f.desync && SliceOf(log, h) && Fits(h, f)
    requires f.total <= |log| < TWO_TO_THE_64 && h.total <= f.total && f.delta == log[h.total..f.total]
    ensures var r := AfterUpdate(h, f);
            SliceOf(log, r) && r.total == f.total && r.max == CLIENT_HISTORY && |r.items| <= r.max
  {
    UpdateLabelsIff(h, f);
    var r := AfterUpdate(h, f);
    if h.items == [] {
      assert Survivors(h, f.scrollback) + f.delta == f.delta;
      var k := Kept(WithTotal(EmptyHist(CLIENT_HISTORY), f.total), |f.delta|);
      assert f.delta[|f.delta| - k..] + [] == log[f.total - k..f.total];
      assert (f.total - k) % TWO_TO_THE_64 == f.total - k;
    } else {
      var all := h.items + f.delta;
      assert all[0..] + [] == all;
      assert all == log[h.first..f.total];
    }
  }

  // ── The rows of a run ──────────────────────────────────────────────────────

  lemma {:induction false} RowsOfAppend(a: seq<Event>, b: seq<Event>)
    ensures RowsOf(a + b) == RowsOf(a) + RowsOf(b)
  {
    if a == [] {
      assert a + b == b;
    } else {
      assert (a + b)[1..] == a[1..] + b;
      RowsOfAppend(a[1..], b);
    }
  }

  lemma SplitSlice(log: seq<Row>, from: nat, now: seq<Row>, later: seq<Row>)
    requires from + |now + later| <= |log| && log[from..from + |now + later|] == now + later
    ensures log[from..from + |now|] == now
    ensures log[from + |now|..from + |now| + |later|] == later
  {
    assert log[from..from + |now|] == (now + later)[..|now|];
    assert log[from + |now|..from + |now| + |later|] == (now + later)[|now|..];
  }

  /** Replaying operations that scroll off the next rows of the log extends a slice of it. */
  lemma {:induction false} EventsSlice(log: seq<Row>, h: Hist, es: seq<Event>)
    requires SliceOf(log, h) && h.max > 0 && |h.items| <= h.max
    requires h.total + |RowsOf(es)| <= |log| && log[h.total..h.total + |RowsOf(es)|] == RowsOf(es)
    ensures var r := ApplyEvents(h, es);
            SliceOf(log, r) && r.total == h.total + |RowsOf(es)| && r.max == h.max && |r.items| <= r.max
    decreases |es|
  {
    if es != [] {
      var g := ApplyEvent(h, es[0]);
      var now := if es[0].Screen? then es[0].rows else [];
      var later := RowsOf(es[1..]);
      SplitSlice(log, h.total, now, later);
      if es[0].Screen? {
        PushAllSlices(log, h, now);
      }
      EventsSlice(log, g, es[1..]);
    }
  }

  lemma SliceExtends(log: seq<Row>, more: seq<Row>, h: Hist)
    requires SliceOf(log, h)
    ensures SliceOf(log + more, h)
  {
    assert (log + more)[h.first..h.total] == log[h.first..h.total];
  }

  /** The server's own history is a slice of its row log, ending at the newest row. */
  ghost predicate ServerHistory(a: Region) {
    SliceOf(a.rows, a.hist) && a.hist.total == |a.rows| && a.hist.max > 0 && |a.hist.items| <= a.hist.max
  }

  lemma FeedKeepsServerHistory(a: Region, es: seq<Event>)
    requires ServerHistory(a)
    ensures ServerHistory(Fed(a, es))
  {
    var log := a.rows + RowsOf(es);
    SliceExtends(a.rows, RowsOf(es), a.hist);
    assert log[a.hist.total..a.hist.total + |RowsOf(es)|] == RowsOf(es);
    EventsSlice(log, a.hist, es);
  }

  /** Of a rightly labelled history, exactly the retained rows with numbers from since to before upto. */
  lemma RetainedRows(log: seq<Row>, h: Hist, since: nat, upto: nat)
    requires SliceOf(log, h)
    ensures var r := ScrollbackSince(h, since, upto);
            var from, to := if since < h.first then h.first else since, if upto < h.total then upto else h.total;
            |r| == (if from < to then to - from else 0) && forall i :: 0 <= i < |r| ==> r[i] == log[from + i]
  {
    var r := ScrollbackSince(h, since, upto);
    var from := if since < h.first then h.first else since;
    forall i | 0 <= i < |r| ensures r[i] == log[from + i] {
      assert r[i] == h.items[from - h.first + i] == log[h.first..h.total][from - h.first + i];
    }
  }

  /** Inside the server's retention, the delta is exactly the rows since the subscriber's last frame. */
  lemma DeltaIsExact(a: Region, since: nat)
    requires ServerHistory(a) && a.hist.first <= since <= a.hist.total
    ensures ScrollbackSince(a.hist, since, a.hist.total) == a.rows[since..]
  {
    RetainedRows(a.rows, a.hist, since, a.hist.total);
  }

  /**
   A subscriber followed from some point on: h is its local history after all
   the frames it has accepted since then.
   */
  ghost predicate Tracks(a: Region, s: Sub, h: Hist) {
    && ServerHistory(a)
    && SliceOf(a.rows, h) && h.max == CLIENT_HISTORY && |h.items| <= h.max
    && h.total == s.lastTotal
    && a.hist.total <= s.lastTotal + |RowsOf(a.proxy.batch)|
  }

  /** What the server and the client can check when a snapshot is due: the delta is retained, and it fits. */
  predicate WithinRetention(a: Region, s: Sub, h: Hist) {
    a.hist.first <= s.lastTotal && Fits(h, DeltaFrame(a, s)) && |a.rows| < TWO_TO_THE_64
  }

  /** The frames a flush sends a subscriber that has room for them. */
  function SentTo(a: Region, out: Flushed, s: Sub): seq<Frame> {
    if Silent(out) then []
    else if !out.needsSnapshot then [EventsFrame(out)]
    else [DeltaFrame(a, s)] + (if out.events == [] && out.syncs == [] then [] else [EventsFrame(out)])
  }

  /** A subscriber that is not behind and has nothing refused accepts exactly the frames of the flush. */
  lemma UnrefusedBroadcast(a: Region, out: Flushed, s: Sub, t: Sub)
    requires Broadcast(a, out, s, t) && !s.behind && t.refused == s.refused
    ensures t == s.(accepted := s.accepted + SentTo(a, out, s),
                    lastTotal := if Silent(out) then s.lastTotal else a.hist.total)
  {
    if Silent(out) {
      assert s.accepted + [] == s.accepted;
    } else if out.needsSnapshot {
      var mid :| SnapshotThenTrailing(a, out, s, mid, t);
      assert mid.refused >= s.refused && t.refused >= mid.refused;
      assert mid == s.(accepted := s.accepted + [DeltaFrame(a, s)], lastTotal := a.hist.total);
      assert s.accepted + [DeltaFrame(a, s)] + [EventsFrame(out)] ==
        s.accepted + ([DeltaFrame(a, s)] + [EventsFrame(out)]);
      assert s.accepted + ([DeltaFrame(a, s)] + []) == s.accepted + [DeltaFrame(a, s)];
    }
  }

  lemma {:induction false} QuietEvents(h: Hist, es: seq<Event>)
    requires forall i :: 0 <= i < |es| ==> es[i].Bell? || es[i].Sync?
    ensures ApplyEvents(h, es) == h
    decreases |es|
  {
    if es != [] {
      QuietEvents(h, es[1..]);
    }
  }

  lemma {:induction false} ApplyEventsAppend(h: Hist, a: seq<Event>, b: seq<Event>)
    ensures ApplyEvents(h, a + b) == ApplyEvents(ApplyEvents(h, a), b)
    decreases |a|
  {
    if a == [] {
      assert a + b == b;
    } else {
      assert (a + b)[1..] == a[1..] + b;
      ApplyEventsAppend(ApplyEvent(h, a[0]), a[1..], b);
    }
  }

  lemma {:induction false} BellsAreBells(b: seq<Event>)
    ensures forall i :: 0 <= i < |Bells(b)| ==> Bells(b)[i].Bell?
  {
    if b != [] {
      BellsAreBells(b[..|b| - 1]);
    }
  }

  lemma FramesOne(h: Hist, f: Frame)
    ensures AfterFrames(h, [f]) == AfterFrame(h, f)
  {
    assert [f][..0] == [];
  }

  lemma FramesTwo(h: Hist, f: Frame, g: Frame)
    ensures AfterFrames(h, [f] + [g]) == AfterFrame(AfterFrame(h, f), g)
  {
    assert ([f] + [g])[..1] == [f];
    FramesOne(h, f);
  }

  /** The held part of a proxy's flush result is the whole batch, or only bells. */
  lemma FlushParts(p: Proxy)
    requires p.syncEnd <= |p.batch|
    ensures var out := FlushOutput(p);
            out.needsSnapshot ==> forall i :: 0 <= i < |out.events| ==> out.events[i].Bell?
    ensures var out := FlushOutput(p); !out.needsSnapshot && !Holds(p) ==> out.events == p.batch
  {
    if !Holds(p) && !p.syncMode && p.syncEnd >= 0 {
      BellsAreBells(p.batch[p.syncEnd..]);
    }
  }

  lemma TrailingEventsAddNothing(h: Hist, out: Flushed)
    requires forall i :: 0 <= i < |out.events| ==> out.events[i].Bell?
    ensures AfterFrame(h, EventsFrame(out)) == h
  {
    QuietEvents(h, out.events + SyncEvents(out.syncs));
  }

  lemma SnapshotTracks(a: Region, out: Flushed, s: Sub, h: Hist)
    requires ServerHistory(a) && SliceOf(a.rows, h) && h.total == s.lastTotal && WithinRetention(a, s, h)
    requires out.needsSnapshot && forall i :: 0 <= i < |out.events| ==> out.events[i].Bell?
    ensures var r := AfterFrames(h, SentTo(a, out, s));
            SliceOf(a.rows, r) && r.total == |a.rows| && r.max == CLIENT_HISTORY && |r.items| <= r.max
  {
    var f := DeltaFrame(a, s);
    DeltaIsExact(a, s.lastTotal);
    assert f.delta == a.rows[h.total..f.total];
    UpdateSlices(a.rows, h, f);
    FramesOne(h, f);
    if out.events == [] && out.syncs == [] {
      assert [f] + [] == [f];
    } else {
      FramesTwo(h, f, EventsFrame(out));
      TrailingEventsAddNothing(AfterFrame(h, f), out);
    }
  }

  lemma EventsTrack(a: Region, out: Flushed, s: Sub, h: Hist)
    requires SliceOf(a.rows, h) && h.max == CLIENT_HISTORY && |h.items| <= h.max
    requires !out.needsSnapshot && !Silent(out) && RowsOf(out.events) == a.rows[h.total..]
    ensures var r := AfterFrames(h, SentTo(a, out, s));
            SliceOf(a.rows, r) && r.total == |a.rows| && r.max == CLIENT_HISTORY && |r.items| <= r.max
  {
    FramesOne(h, EventsFrame(out));
    ApplyEventsAppend(h, out.events, SyncEvents(out.syncs));
    QuietEvents(ApplyEvents(h, out.events), SyncEvents(out.syncs));
    assert a.rows[h.total..] == a.rows[h.total..h.total + |RowsOf(out.events)|];
    EventsSlice(a.rows, h, out.events);
  }

  /**
   One turn of the actor with nothing refused to the subscriber: its history
   stays the slice of the server's row log with the server's labels, up to the
   rows still held, provided any snapshot is within both retention limits.
   */
  lemma FlushTracks(a0: Region, a: Region, es: seq<Event>, b: Region, c: nat, h: Hist)
    requires c in a0.subs && Tracks(a0, a0.subs[c], h) && HeldOpen(a0.proxy)
    requires a.subs == a0.subs && a.hist == Fed(a0, es).hist && a.rows == Fed(a0, es).rows
    requires Coherent(a.proxy) && a.proxy.batch == a0.proxy.batch + es
    requires AfterBroadcast(a, b) && !a0.subs[c].behind && b.subs[c].refused == a0.subs[c].refused
    requires FlushOutput(a.proxy).needsSnapshot ==> WithinRetention(a, a0.subs[c], h)
    ensures Tracks(b, b.subs[c], AfterFrames(h, SentTo(a, FlushOutput(a.proxy), a0.subs[c])))
    ensures b.subs[c].accepted == a0.subs[c].accepted + SentTo(a, FlushOutput(a.proxy), a0.subs[c])
  {
    var s, out := a0.subs[c], FlushOutput(a.proxy);
    assert ServerHistory(a) by { FeedKeepsServerHistory(a0, es); }
    SliceExtends(a0.rows, RowsOf(es), h);
    RowsOfAppend(a0.proxy.batch, es);
    UnrefusedBroadcast(a, out, s, b.subs[c]);
    FlushParts(a.proxy);
    if Holds(a.proxy) {
      assert Silent(out);
    } else if out.needsSnapshot {
      SnapshotTracks(a, out, s, h);
    } else {
      if a0.proxy.batch != [] {
        OpenBatchEndsInSnapshot(a0.proxy.batch, es);
      }
      assert a0.proxy.batch == [] && out.events == es by { assert [] + es == es; }
      assert a.rows[h.total..] == RowsOf(es);
      if Silent(out) {
        assert es == [];
      } else {
        EventsTrack(a, out, s, h);
      }
    }
  }

  lemma {:induction false} AfterFramesAppend(h: Hist, fs: seq<Frame>, gs: seq<Frame>)
    ensures AfterFrames(h, fs + gs) == AfterFrames(AfterFrames(h, fs), gs)
  {
    if gs == [] {
      assert fs + gs == fs;
    } else {
      assert (fs + gs)[..|fs + gs| - 1] == fs + gs[..|gs| - 1];
      AfterFramesAppend(h, fs, gs[..|gs| - 1]);
    }
  }

  // ── Following one subscriber through a run ─────────────────────────────────

  /** The region as broadcastToSubscribers sees it during this turn, if the turn broadcasts. */
  function BeforeFlush(a: Region, m: Msg): Region {
    match m
    case PtyData(es) => Fed(a, es)
    case SyncMarker(id) => a.(proxy := Marked(a.proxy, id))
    case _ => a
  }

  /** c stays subscribed, is refused nothing, and every snapshot due to it is within both retention limits. */
  ghost predicate Undisturbed(a: Region, m: Msg, b: Region, c: nat, h: Hist) {
    && c in a.subs && c in b.subs
    && (m.AddSubscriber? || m.RemoveSubscriber? ==> m.client != c)
    && !a.subs[c].behind && b.subs[c].refused == a.subs[c].refused
    && (m.PtyData? || m.SyncMarker? ==>
          var f := BeforeFlush(a, m);
          f.proxy.syncEnd <= |f.proxy.batch| &&
            (FlushOutput(f.proxy).needsSnapshot ==> WithinRetention(f, a.subs[c], h)))
  }

  lemma TurnTracks(a: Region, m: Msg, b: Region, c: nat, h: Hist) returns (fs: seq<Frame>)
    requires Inv(a) && Next(a, m, b) && Undisturbed(a, m, b, c, h) && Tracks(a, a.subs[c], h)
    ensures b.subs[c].accepted == a.subs[c].accepted + fs && Tracks(b, b.subs[c], AfterFrames(h, fs))
  {
    match m
    case PtyData(es) =>
      RecordAllCoherent(a.proxy, es);
      FlushTracks(a, Fed(a, es), es, b, c, h);
      fs := SentTo(Fed(a, es), FlushOutput(Fed(a, es).proxy), a.subs[c]);
    case SyncMarker(id) =>
      var f := a.(proxy := Marked(a.proxy, id));
      assert a.proxy.batch + [] == a.proxy.batch && a.rows + RowsOf([]) == a.rows;
      FlushTracks(a, f, [], b, c, h);
      fs := SentTo(f, FlushOutput(f.proxy), a.subs[c]);
    case AddSubscriber(d) =>
      fs := [];
      assert a.subs[c].accepted + [] == a.subs[c].accepted;
    case RemoveSubscriber(d) =>
      fs := [];
      assert a.subs[c].accepted + [] == a.subs[c].accepted;
    case CatchupTimer =>
      fs := [];
      assert TimerServed(a, a.subs[c], b.subs[c]);
      assert a.subs[c].accepted + [] == a.subs[c].accepted;
  }

  /** The history built from the frames accepted after base. */
  function Since(h: Hist, base: seq<Frame>, s: Sub): Hist {
    AfterFrames(h, if |base| <= |s.accepted| then s.accepted[|base|..] else [])
  }

  lemma SinceAppend(h: Hist, base: seq<Frame>, s: Sub, t: Sub, fs: seq<Frame>)
    requires base <= s.accepted && t.accepted == s.accepted + fs
    ensures base <= t.accepted && Since(h, base, t) == AfterFrames(Since(h, base, s), fs)
  {
    assert t.accepted[|base|..] == s.accepted[|base|..] + fs;
    AfterFramesAppend(h, s.accepted[|base|..], fs);
  }

  /** c's local history in state i, from the frames it accepted since state start. */
  function HistoryAt(states: seq<Region>, start: nat, i: nat, c: nat, h: Hist): Hist
    requires start < |states| && i < |states| && c in states[start].subs
  {
    if c in states[i].subs then Since(h, states[start].subs[c].accepted, states[i].subs[c]) else h
  }

  /** c is still subscribed in state i, and the history it built since state start is in step. */
  ghost predicate InStep(states: seq<Region>, start: nat, i: nat, c: nat, h: Hist)
    requires start < |states| && i < |states| && c in states[start].subs
  {
    && c in states[i].subs
    && states[start].subs[c].accepted <= states[i].subs[c].accepted
    && Tracks(states[i], states[i].subs[c], HistoryAt(states, start, i, c, h))
  }

  /** One more turn of a followed subscriber. */
  lemma FollowOn(states: seq<Region>, msgs: seq<Msg>, start: nat, i: nat, c: nat, h: Hist)
    requires start <= i < |msgs| == |states| - 1 && c in states[start].subs
    requires Inv(states[i]) && Next(states[i], msgs[i], states[i + 1]) && InStep(states, start, i, c, h)
    requires Undisturbed(states[i], msgs[i], states[i + 1], c, HistoryAt(states, start, i, c, h))
    ensures InStep(states, start, i + 1, c, h)
  {
    var s, t := states[i].subs[c], states[i + 1].subs[c];
    var fs := TurnTracks(states[i], msgs[i], states[i + 1], c, HistoryAt(states, start, i, c, h));
    SinceAppend(h, states[start].subs[c].accepted, s, t, fs);
  }

  /**
   Main result: take any run, and any subscriber whose local history is a
   correctly labelled slice when it is first followed. As long as it is refused
   nothing and every snapshot is within both retention limits, the history it
   builds from the frames it accepted stays one contiguous slice of the
   server's row log with the server's labels, short of the newest row only by
   rows of a batch still held.
   */
  lemma {:induction false} HistoryStaysASlice(states: seq<Region>, msgs: seq<Msg>, start: nat, n: nat, c: nat, h: Hist)
    requires IsRun(states, msgs) && start <= n <= |msgs|
    requires c in states[start].subs && Tracks(states[start], states[start].subs[c], h)
    requires forall i :: start <= i < n ==>
               Undisturbed(states[i], msgs[i], states[i + 1], c, HistoryAt(states, start, i, c, h))
    ensures InStep(states, start, n, c, h)
  {
    if n == start {
      assert states[start].subs[c].accepted[|states[start].subs[c].accepted|..] == [];
    } else {
      HistoryStaysASlice(states, msgs, start, n - 1, c, h);
      RunKeeps(states, msgs, n - 1);
      FollowOn(states, msgs, start, n - 1, c, h);
    }
  }
}
