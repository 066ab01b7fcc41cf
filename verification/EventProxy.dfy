/**
 The event proxy (internal/server/event_proxy.go): it records every screen
 operation, holds the record while synchronized output (private mode 2026) is
 active, and turns a finished synchronized batch into a snapshot.
 */
module Capture {
  type Row = string

  /**
   One recorded operation. tag stands for its operands; rows are the lines it
   scrolls into history. Everything a screen snapshot reconstructs is screen
   state; only a bell is transient.
   */
  datatype Event =
    | Screen(tag: int, rows: seq<Row>)
    | Reset
    | Modes(enable: bool, modes: seq<int>, privateModes: bool)
    | Bell
    | Sync(id: string)

  const SYNCHRONIZED_OUTPUT := 2026
  const MAX_SYNC_BATCH_EVENTS := 65536
  const MAX_SYNC_HISTORY := 256

  predicate OpensSync(e: Event) { e.Modes? && e.enable && e.privateModes && SYNCHRONIZED_OUTPUT in e.modes }
  predicate ClosesSync(e: Event) { e.Modes? && !e.enable && e.privateModes && SYNCHRONIZED_OUTPUT in e.modes }

  /** Whether synchronized output is still on after these operations, starting from off. */
  function SyncOpen(b: seq<Event>): bool {
    if b == [] then false
    else var last := b[|b| - 1];
      if OpensSync(last) then true
      else if ClosesSync(last) then false
      else SyncOpen(b[..|b| - 1])
  }

  /** How many of these operations precede the last point where synchronized output ended; -1 if it never did. */
  function SyncEnd(b: seq<Event>): (e: int)
    ensures -1 <= e <= |b|
  {
    if b == [] then -1
    else if ClosesSync(b[|b| - 1]) && SyncOpen(b[..|b| - 1]) then |b|
    else SyncEnd(b[..|b| - 1])
  }

  function Bells(b: seq<Event>): seq<Event> {
    if b == [] then [] else Bells(b[..|b| - 1]) + (if b[|b| - 1].Bell? then [Bell] else [])
  }

  predicate AllBells(b: seq<Event>) {
    forall i :: 0 <= i < |b| ==> b[i].Bell?
  }

  lemma {:induction false} BellsAreKept(b: seq<Event>)
    ensures AllBells(Bells(b)) && multiset(Bells(b))[Bell] == multiset(b)[Bell] == |Bells(b)|
  {
    if b != [] {
      var init, last := b[..|b| - 1], b[|b| - 1];
      BellsAreKept(init);
      assert b == init + [last];
    }
  }

  // ── What the flags mean ────────────────────────────────────────────────────

  /** Synchronized output is on: it was switched on, and not off since. */
  ghost predicate SwitchedOn(b: seq<Event>) {
    exists i :: 0 <= i < |b| && OpensSync(b[i]) && NoneCloses(b, i)
  }

  predicate NoneCloses(b: seq<Event>, i: int) {
    forall j :: i < j < |b| && 0 <= j ==> !ClosesSync(b[j])
  }

  lemma {:induction false} SyncOpenIff(b: seq<Event>)
    ensures SyncOpen(b) <==> SwitchedOn(b)
  {
    if b != [] {
      var init, last := b[..|b| - 1], b[|b| - 1];
      SyncOpenIff(init);
      if OpensSync(last) {
        assert NoneCloses(b, |b| - 1);
      } else if SwitchedOn(b) {
        var i :| 0 <= i < |b| && OpensSync(b[i]) && NoneCloses(b, i);
        assert OpensSync(init[i]) && NoneCloses(init, i);
        assert !ClosesSync(b[|b| - 1]);
      } else if SwitchedOn(init) && !ClosesSync(last) {
        var i :| 0 <= i < |init| && OpensSync(init[i]) && NoneCloses(init, i);
        forall j | i < j < |b| ensures !ClosesSync(b[j]) {
          assert j < |init| ==> b[j] == init[j];
        }
        assert OpensSync(b[i]) && NoneCloses(b, i);
      }
    }
  }

  /** The k-th operation switched synchronized output off. */
  ghost predicate EndsAt(b: seq<Event>, k: int) {
    0 < k <= |b| && ClosesSync(b[k - 1]) && SwitchedOn(b[..k - 1])
  }

  ghost predicate LastEnd(b: seq<Event>, k: int) {
    EndsAt(b, k) && forall j :: EndsAt(b, j) ==> j <= k
  }

  lemma EndsAtInit(b: seq<Event>, k: int)
    requires b != [] && k < |b|
    ensures EndsAt(b, k) <==> EndsAt(b[..|b| - 1], k)
  {
    if 0 < k {
      assert b[..|b| - 1][..k - 1] == b[..k - 1];
    }
  }

  /** The marked end is the last operation that switched synchronized output off, and there is none when it is -1. */
  lemma {:induction false} SyncEndIsLast(b: seq<Event>)
    ensures SyncEnd(b) >= 0 ==> LastEnd(b, SyncEnd(b))
    ensures SyncEnd(b) < 0 ==> forall k :: !EndsAt(b, k)
  {
    if b != [] {
      SyncEndIsLast(b[..|b| - 1]);
      SyncOpenIff(b[..|b| - 1]);
      forall k | k < |b| ensures EndsAt(b, k) <==> EndsAt(b[..|b| - 1], k) {
        EndsAtInit(b, k);
      }
    }
  }

  /** The last n elements, or all of them when there are fewer. */
  function Tail<T>(s: seq<T>, n: nat): seq<T> {
    if |s| <= n then s else s[|s| - n..]
  }

  datatype Proxy = Proxy(
    batch: seq<Event>, syncMode: bool, syncEnd: int, pendingSyncs: seq<string>, allSyncs: seq<string>)

  datatype Flushed = Flushed(events: seq<Event>, needsSnapshot: bool, syncs: seq<string>)

  const FRESH := Proxy([], false, -1, [], [])

  function Recorded(p: Proxy, e: Event): Proxy {
    var b := p.batch + [e];
    if OpensSync(e) then p.(batch := b, syncMode := true)
    else if ClosesSync(e) && p.syncMode then p.(batch := b, syncMode := false, syncEnd := |b|)
    else p.(batch := b)
  }

  function Marked(p: Proxy, id: string): Proxy {
    p.(pendingSyncs := p.pendingSyncs + [id], allSyncs := Tail(p.allSyncs + [id], MAX_SYNC_HISTORY))
  }

  predicate Holds(p: Proxy) { p.syncMode && |p.batch| <= MAX_SYNC_BATCH_EVENTS }

  /** What Flush hands out; an overlong batch is cut as if synchronized output ended at its last operation. */
  function FlushOutput(p: Proxy): Flushed
    requires p.syncEnd <= |p.batch|
  {
    if Holds(p) then Flushed([], false, [])
    else if p.syncMode then Flushed([], true, p.pendingSyncs)
    else if p.syncEnd >= 0 then Flushed(Bells(p.batch[p.syncEnd..]), true, p.pendingSyncs)
    else Flushed(p.batch, false, p.pendingSyncs)
  }

  function AfterFlush(p: Proxy): Proxy {
    if Holds(p) then p else Proxy([], false, -1, [], p.allSyncs)
  }

  /** The proxy's flags say exactly what its held batch says. */
  ghost predicate Coherent(p: Proxy) {
    p.syncMode == SyncOpen(p.batch) && p.syncEnd == SyncEnd(p.batch)
  }

  lemma RecordedCoherent(p: Proxy, e: Event)
    requires Coherent(p)
    ensures Coherent(Recorded(p, e))
  {
    assert (p.batch + [e])[..|p.batch|] == p.batch;
  }

  lemma FlushCoherent(p: Proxy)
    requires Coherent(p)
    ensures Coherent(AfterFlush(p))
    ensures |AfterFlush(p).batch| <= MAX_SYNC_BATCH_EVENTS
    ensures AfterFlush(p).batch == [] || (AfterFlush(p).syncMode && AfterFlush(p) == p)
  {
  }

  // ── Whole runs ─────────────────────────────────────────────────────────────

  datatype Input = Operation(e: Event) | Marker(id: string) | DoFlush

  /** One flush that let something go: the operations it took and what it handed out for them. */
  datatype Segment = Segment(taken: seq<Event>, out: Flushed)

  datatype Trace = Trace(proxy: Proxy, segments: seq<Segment>)

  function TraceStep(t: Trace, x: Input): (u: Trace)
    requires t.proxy.syncEnd <= |t.proxy.batch|
    ensures u.proxy.syncEnd <= |u.proxy.batch|
  {
    match x
    case Operation(e) => t.(proxy := Recorded(t.proxy, e))
    case Marker(id) => t.(proxy := Marked(t.proxy, id))
    case DoFlush =>
      if Holds(t.proxy) then t
      else Trace(AfterFlush(t.proxy), t.segments + [Segment(t.proxy.batch, FlushOutput(t.proxy))])
  }

  function Run(inputs: seq<Input>): (t: Trace)
    ensures t.proxy.syncEnd <= |t.proxy.batch|
  {
    if inputs == [] then Trace(FRESH, []) else TraceStep(Run(inputs[..|inputs| - 1]), inputs[|inputs| - 1])
  }

  function Operations(inputs: seq<Input>): seq<Event> {
    if inputs == [] then []
    else Operations(inputs[..|inputs| - 1])
         + (if inputs[|inputs| - 1].Operation? then [inputs[|inputs| - 1].e] else [])
  }

  function Markers(inputs: seq<Input>): seq<string> {
    if inputs == [] then []
    else Markers(inputs[..|inputs| - 1])
         + (if inputs[|inputs| - 1].Marker? then [inputs[|inputs| - 1].id] else [])
  }

  function Taken(ss: seq<Segment>): seq<Event> {
    if ss == [] then [] else Taken(ss[..|ss| - 1]) + ss[|ss| - 1].taken
  }

  function SyncsOut(ss: seq<Segment>): seq<string> {
    if ss == [] then [] else SyncsOut(ss[..|ss| - 1]) + ss[|ss| - 1].out.syncs
  }

  /**
   What a segment must hand out for the operations it took: all of them, in
   order, if synchronized output never ended in it; otherwise a snapshot and
   the bells rung after the last end, where an open batch counts as ending only
   by overflowing.
   */
  ghost predicate Accounted(s: Segment) {
    if SwitchedOn(s.taken) then
      |s.taken| > MAX_SYNC_BATCH_EVENTS && s.out.needsSnapshot && s.out.events == []
    else if exists k :: EndsAt(s.taken, k) then
      && s.out.needsSnapshot && AllBells(s.out.events)
      && forall k :: LastEnd(s.taken, k) ==> |s.out.events| == multiset(s.taken[k..])[Bell]
    else
      !s.out.needsSnapshot && s.out.events == s.taken
  }

  lemma FlushOutputAccounted(p: Proxy)
    requires Coherent(p) && !Holds(p)
    ensures Accounted(Segment(p.batch, FlushOutput(p)))
  {
    SyncOpenIff(p.batch);
    SyncEndIsLast(p.batch);
    if !p.syncMode && p.syncEnd >= 0 {
      assert EndsAt(p.batch, p.syncEnd);
      BellsAreKept(p.batch[p.syncEnd..]);
      forall k | LastEnd(p.batch, k) ensures k == p.syncEnd {
      }
    }
  }

  lemma TailAppend<T>(s: seq<T>, x: T, n: nat)
    requires n > 0
    ensures Tail(Tail(s, n) + [x], n) == Tail(s + [x], n)
  {
  }

  ghost predicate Accounts(inputs: seq<Input>, t: Trace) {
    && Taken(t.segments) + t.proxy.batch == Operations(inputs)
    && (forall i :: 0 <= i < |t.segments| ==> Accounted(t.segments[i]))
    && SyncsOut(t.segments) + t.proxy.pendingSyncs == Markers(inputs)
    && t.proxy.allSyncs == Tail(Markers(inputs), MAX_SYNC_HISTORY)
    && Coherent(t.proxy)
  }

  lemma FlushAccounts(t: Trace)
    requires Coherent(t.proxy) && !Holds(t.proxy)
    requires forall i :: 0 <= i < |t.segments| ==> Accounted(t.segments[i])
    ensures var s := Segment(t.proxy.batch, FlushOutput(t.proxy));
            var ss := t.segments + [s];
            && Taken(ss) == Taken(t.segments) + t.proxy.batch
            && SyncsOut(ss) == SyncsOut(t.segments) + t.proxy.pendingSyncs
            && (forall i :: 0 <= i < |ss| ==> Accounted(ss[i]))
  {
    var s := Segment(t.proxy.batch, FlushOutput(t.proxy));
    assert (t.segments + [s])[..|t.segments|] == t.segments;
    FlushOutputAccounted(t.proxy);
  }

  lemma OperationsOne(inputs: seq<Input>, x: Input)
    ensures Operations(inputs + [x]) == Operations(inputs) + if x.Operation? then [x.e] else []
    ensures Markers(inputs + [x]) == Markers(inputs) + if x.Marker? then [x.id] else []
  {
    assert (inputs + [x])[..|inputs|] == inputs;
  }

  lemma Regroup<T>(a: seq<T>, b: seq<T>, c: seq<T>)
    ensures a + (b + c) == (a + b) + c && a + [] == a
  {
  }

  lemma OperationAccounts(inputs: seq<Input>, t: Trace, e: Event)
    requires Accounts(inputs, t)
    ensures Accounts(inputs + [Operation(e)], TraceStep(t, Operation(e)))
  {
    OperationsOne(inputs, Operation(e));
    RecordedCoherent(t.proxy, e);
    Regroup(Taken(t.segments), t.proxy.batch, [e]);
  }

  lemma MarkerAccounts(inputs: seq<Input>, t: Trace, id: string)
    requires Accounts(inputs, t)
    ensures Accounts(inputs + [Marker(id)], TraceStep(t, Marker(id)))
  {
    OperationsOne(inputs, Marker(id));
    TailAppend(Markers(inputs), id, MAX_SYNC_HISTORY);
    Regroup(SyncsOut(t.segments), t.proxy.pendingSyncs, [id]);
    Regroup(Operations(inputs), [], []);
  }

  lemma FlushStepAccounts(inputs: seq<Input>, t: Trace)
    requires Accounts(inputs, t)
    ensures Accounts(inputs + [DoFlush], TraceStep(t, DoFlush))
  {
    OperationsOne(inputs, DoFlush);
    if !Holds(t.proxy) {
      FlushAccounts(t);
    }
  }

  /**
   Over any run: the operations taken by the flushes followed by those still
   held are exactly the captured log; each flush accounts for what it took;
   every sync marker is handed out once, in order, or still pending; and the
   history kept for new subscribers is the newest 256 markers.
   */
  lemma {:induction false} RunAccounts(inputs: seq<Input>)
    ensures Accounts(inputs, Run(inputs))
  {
    if inputs != [] {
      var before, x := inputs[..|inputs| - 1], inputs[|inputs| - 1];
      RunAccounts(before);
      assert before + [x] == inputs;
      match x
      case Operation(e) => OperationAccounts(before, Run(before), e);
      case Marker(id) => MarkerAccounts(before, Run(before), id);
      case DoFlush => FlushStepAccounts(before, Run(before));
    }
  }

  /** The backlog for new subscribers is the newest markers, 256 of them once there are as many. */
  lemma BacklogIsNewest(inputs: seq<Input>)
    ensures var all, backlog := Markers(inputs), Run(inputs).proxy.allSyncs;
            && |backlog| == (if |all| <= MAX_SYNC_HISTORY then |all| else MAX_SYNC_HISTORY)
            && backlog == all[|all| - |backlog|..]
  {
    RunAccounts(inputs);
  }

  /** A run that ends in a flush holds at most 65536 operations, and holds any only while synchronized output is on. */
  lemma HeldIsBounded(inputs: seq<Input>)
    requires inputs != [] && inputs[|inputs| - 1].DoFlush?
    ensures |Run(inputs).proxy.batch| <= MAX_SYNC_BATCH_EVENTS
    ensures Run(inputs).proxy.batch != [] ==> SwitchedOn(Run(inputs).proxy.batch)
  {
    SyncOpenIff(Run(inputs).proxy.batch);
    RunAccounts(inputs);
  }

  // ── The proxy itself ───────────────────────────────────────────────────────

  class EventProxy {
    var batch: seq<Event>
    var syncMode: bool
    var syncEndIndex: int
    var pendingSyncs: seq<string>
    var allSyncs: seq<string>

    function State(): Proxy
      reads this
    {
      Proxy(batch, syncMode, syncEndIndex, pendingSyncs, allSyncs)
    }

    ghost predicate Valid()
      reads this
    {
      Coherent(State())
    }

    constructor ()
      ensures Valid() && State() == FRESH
    {
      batch, syncMode, syncEndIndex := [], false, -1;
      pendingSyncs, allSyncs := [], [];
    }

    /** Draw, Bell, cursor motion and every other recorded method that touches no mode. */
    method Record(e: Event)
      requires Valid() && !e.Modes?
      modifies this`batch
      ensures Valid() && State() == Recorded(old(State()), e)
    {
      RecordedCoherent(State(), e);
      batch := batch + [e];
    }

    method SetMode(modes: seq<int>, privateModes: bool)
      requires Valid()
      modifies this`batch, this`syncMode
      ensures Valid() && State() == Recorded(old(State()), Modes(true, modes, privateModes))
      ensures syncMode == (old(syncMode) || (privateModes && 2026 in modes))
    {
      RecordedCoherent(State(), Modes(true, modes, privateModes));
      batch := batch + [Modes(true, modes, privateModes)];
      if privateModes {
        NoteOpened(modes);
      }
    }

    method NoteOpened(modes: seq<int>)
      modifies this`syncMode
      ensures syncMode == (old(syncMode) || SYNCHRONIZED_OUTPUT in modes)
    {
      for i := 0 to |modes|
        invariant syncMode == (old(syncMode) || SYNCHRONIZED_OUTPUT in modes[..i])
      {
        if modes[i] == SYNCHRONIZED_OUTPUT {
          syncMode := true;
        }
        assert modes[..i + 1] == modes[..i] + [modes[i]];
      }
      assert modes[..|modes|] == modes;
    }

    method ResetMode(modes: seq<int>, privateModes: bool)
      requires Valid()
      modifies this`batch, this`syncMode, this`syncEndIndex
      ensures Valid() && State() == Recorded(old(State()), Modes(false, modes, privateModes))
      ensures syncMode == (old(syncMode) && !(privateModes && 2026 in modes))
      ensures syncEndIndex == if old(syncMode) && !syncMode then |batch| else old(syncEndIndex)
    {
      RecordedCoherent(State(), Modes(false, modes, privateModes));
      batch := batch + [Modes(false, modes, privateModes)];
      if privateModes {
        NoteClosed(modes);
      }
    }

    method NoteClosed(modes: seq<int>)
      modifies this`syncMode, this`syncEndIndex
      ensures syncMode == (old(syncMode) && SYNCHRONIZED_OUTPUT !in modes)
      ensures syncEndIndex == if old(syncMode) && SYNCHRONIZED_OUTPUT in modes then |batch| else old(syncEndIndex)
    {
      for i := 0 to |modes|
        invariant syncMode == (old(syncMode) && SYNCHRONIZED_OUTPUT !in modes[..i])
        invariant syncEndIndex == if old(syncMode) && SYNCHRONIZED_OUTPUT in modes[..i] then |batch|
          else old(syncEndIndex)
      {
        if modes[i] == SYNCHRONIZED_OUTPUT && syncMode {
          syncMode := false;
          syncEndIndex := |batch|;
        }
        assert modes[..i + 1] == modes[..i] + [modes[i]];
      }
      assert modes[..|modes|] == modes;
    }

    method EmitSyncMarker(id: string)
      requires Valid()
      modifies this`pendingSyncs, this`allSyncs
      ensures Valid() && State() == Marked(old(State()), id)
    {
      pendingSyncs := pendingSyncs + [id];
      allSyncs := allSyncs + [id];
      if |allSyncs| > MAX_SYNC_HISTORY {
        allSyncs := allSyncs[|allSyncs| - MAX_SYNC_HISTORY..];
      }
    }

    /** Bells are transient: no screen snapshot reconstructs them. */
    static method TrailingBells(events: seq<Event>) returns (bells: seq<Event>)
      ensures bells == Bells(events)
      ensures AllBells(bells) && multiset(bells)[Bell] == multiset(events)[Bell]
    {
      bells := [];
      for i := 0 to |events|
        invariant bells == Bells(events[..i])
      {
        assert events[..i + 1][..i] == events[..i];
        if events[i].Bell? {
          bells := bells + [events[i]];
        }
      }
      assert events[..|events|] == events;
      BellsAreKept(events);
    }

    method Flush() returns (events: seq<Event>, needsSnapshot: bool, syncs: seq<string>)
      requires Valid()
      modifies this`batch, this`syncMode, this`syncEndIndex, this`pendingSyncs
      ensures Valid()
      ensures State() == AfterFlush(old(State()))
      ensures Flushed(events, needsSnapshot, syncs) == FlushOutput(old(State()))
    {
      if syncMode {
        if |batch| <= MAX_SYNC_BATCH_EVENTS {
          return [], false, [];
        }
        syncMode := false;
        syncEndIndex := |batch|;
      }
      syncs := pendingSyncs;
      pendingSyncs := [];
      if syncEndIndex >= 0 {
        var trailing := TrailingBells(batch[syncEndIndex..]);
        batch := [];
        syncEndIndex := -1;
        return trailing, true, syncs;
      }
      if |batch| == 0 {
        return [], false, syncs;
      }
      events := batch;
      batch := [];
      return events, false, syncs;
    }
  }
}
