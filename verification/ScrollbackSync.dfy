/**
 Fetching scrollback: the server answers newest-first in chunks
 (internal/server/handlers.go), the client rebuilds them and reconciles the
 result with its own history by sequence number (internal/tui/scrollback.go).
 */
module ScrollbackSync {
  import opened Capture
  import opened Scrollback
  import opened Terminal
  import opened Viewport

  const CHUNK: nat := 1000

  datatype Response = Response(error: bool, lines: seq<Row>, total: nat, done: bool, scrollbackTotal: nat)

  // ── The server's answer ────────────────────────────────────────────────────

  /** Newest-first pieces put back in oldest-first order. */
  function Rebuilt(rs: seq<Response>): seq<Row> {
    if rs == [] then [] else rs[|rs| - 1].lines + Rebuilt(rs[..|rs| - 1])
  }

  predicate ChunkOf(r: Response, total: nat, scrollbackTotal: nat, done: bool) {
    && !r.error && r.total == total && r.scrollbackTotal == scrollbackTotal && r.done == done
    && (if done then |r.lines| <= CHUNK else |r.lines| == CHUNK)
  }

  /** A whole answer: full chunks, then one final chunk, which alone says it is done. */
  ghost predicate WholeAnswer(rs: seq<Response>, lines: seq<Row>, scrollbackTotal: nat) {
    && rs != []
    && Rebuilt(rs) == lines
    && (forall i :: 0 <= i < |rs| ==> ChunkOf(rs[i], |lines|, scrollbackTotal, i == |rs| - 1))
  }

  lemma RebuiltOne(rs: seq<Response>, r: Response)
    ensures Rebuilt(rs + [r]) == r.lines + Rebuilt(rs)
  {
    assert (rs + [r])[..|rs|] == rs;
  }

  /** Cutting the newest piece off what is still to be sent. */
  lemma CutNewest(lines: seq<Row>, start: nat, rs: seq<Response>, r: Response)
    requires start <= |lines| && r.lines == lines[start..]
    ensures lines[..start] + Rebuilt(rs + [r]) == lines + Rebuilt(rs)
  {
    RebuiltOne(rs, r);
    assert lines == lines[..start] + lines[start..];
  }

  method HandleGetScrollback(found: bool, rows: seq<Row>, scrollbackTotal: nat) returns (replies: seq<Response>)
    ensures !found ==> |replies| == 1 && replies[0].error
    ensures found ==> WholeAnswer(replies, rows, scrollbackTotal)
  {
    if !found {
      return [Response(true, [], 0, false, 0)];
    }
    var lines := rows;
    var total := |lines|;
    replies := [];
    while |lines| > CHUNK
      invariant lines + Rebuilt(replies) == rows
      invariant forall i :: 0 <= i < |replies| ==> ChunkOf(replies[i], total, scrollbackTotal, false)
    {
      var start := |lines| - CHUNK;
      var reply := Response(false, lines[start..], total, false, scrollbackTotal);
      CutNewest(lines, start, replies, reply);
      lines := lines[..start];
      replies := replies + [reply];
    }
    var reply := Response(false, lines, total, true, scrollbackTotal);
    RebuiltOne(replies, reply);
    replies := replies + [reply];
  }

  // ── The client's side ──────────────────────────────────────────────────────

  function Clamp(n: int, hi: nat): nat { if n < 0 then 0 else if n > hi then hi else n }

  /** The history a fetched range is merged into: discarded when the client has missed rows of it. */
  function MergeBase(h: Hist, total: nat): Hist {
    if h.total < total then WithTotal(Cleared(h), total) else h
  }

  /** Merging the rows [total - |fetched|, total) into the local history. */
  function Reconciled(h: Hist, fetched: seq<Row>, total: nat): Hist {
    var base := MergeBase(h, total);
    Prepend(base, fetched[..Clamp(base.first - (total - |fetched|), |fetched|)])
  }

  /** How many fetched rows end up in the history. */
  function Taken(h: Hist, n: nat, total: nat): nat {
    var base := MergeBase(h, total);
    Kept(base, Clamp(base.first - (total - n), n))
  }

  /** Rows in front of a slice lengthen it when they are the rows before it in the log. */
  lemma PrependSlices(log: seq<Row>, h: Hist, lines: seq<Row>)
    requires SliceOf(log, h) && |log| < TWO_TO_THE_64
    requires var k := Kept(h, |lines|); k <= h.first && lines[|lines| - k..] == log[h.first - k..h.first]
    ensures var r := Prepend(h, lines);
            SliceOf(log, r) && r.first == h.first - Kept(h, |lines|) && r.total == h.total
  {
    var k := Kept(h, |lines|);
    assert (h.first - k) % TWO_TO_THE_64 == h.first - k;
    assert log[h.first - k..h.first] + log[h.first..h.total] == log[h.first - k..h.total];
  }

  /** The newest k of the first p rows of a slice of the log. */
  lemma SliceOfSlice(log: seq<Row>, start: nat, n: nat, p: nat, k: nat)
    requires k <= p <= n && start + n <= |log|
    ensures log[start..start + n][..p][p - k..] == log[start + p - k..start + p]
  {
    assert log[start..start + n][..p] == log[start..start + p];
  }

  /** A client that missed rows ends with the newest fetched rows, as many as it has capacity for, rightly labelled. */
  lemma BehindIsRebuilt(log: seq<Row>, h: Hist, fetched: seq<Row>, total: nat)
    requires h.total < total <= |log| < TWO_TO_THE_64
    requires |fetched| <= total && fetched == log[total - |fetched|..total]
    ensures var r := Reconciled(h, fetched, total);
            var k := if |fetched| <= h.max then |fetched| else h.max;
            SliceOf(log, r) && r.first == total - k && r.total == total
  {
    var base, n := MergeBase(h, total), |fetched|;
    assert base.items == log[total..total];
    SliceOfSlice(log, total - n, n, n, Kept(base, n));
    PrependSlices(log, base, fetched[..n]);
  }

  /** A rightly labelled client that is not behind is extended backwards, and stays rightly labelled. */
  lemma GapIsFilled(log: seq<Row>, h: Hist, fetched: seq<Row>, total: nat)
    requires SliceOf(log, h) && total <= h.total && |log| < TWO_TO_THE_64
    requires |fetched| <= total && fetched == log[total - |fetched|..total]
    requires h.first <= total || Room(h) == 0
    ensures var r := Reconciled(h, fetched, total);
            SliceOf(log, r) && r.total == h.total && r.first == h.first - Taken(h, |fetched|, total)
  {
    var p := Clamp(h.first - (total - |fetched|), |fetched|);
    FillsGap(log, h, fetched, total, p, fetched[..p]);
    NotBehind(h, fetched, total);
  }

  lemma FillsGap(log: seq<Row>, h: Hist, fetched: seq<Row>, total: nat, p: nat, lines: seq<Row>)
    requires SliceOf(log, h) && total <= |log| < TWO_TO_THE_64 && (h.first <= total || Room(h) == 0)
    requires |fetched| <= total && fetched == log[total - |fetched|..total]
    requires p == Clamp(h.first - (total - |fetched|), |fetched|) && lines == fetched[..p]
    ensures var r := Prepend(h, lines); SliceOf(log, r) && r.total == h.total && r.first == h.first - Kept(h, p)
  {
    GapRows(log, h.first, fetched, total, p, Kept(h, p), lines);
    PrependSlices(log, h, lines);
  }

  /** A client that is not behind is not cleared first. */
  lemma NotBehind(h: Hist, fetched: seq<Row>, total: nat)
    requires total <= h.total
    ensures var p := Clamp(h.first - (total - |fetched|), |fetched|);
            Reconciled(h, fetched, total) == Prepend(h, fetched[..p]) && Taken(h, |fetched|, total) == Kept(h, p)
  {
  }

  /** The rows before a history starting at first, cut from the rows fetched up to total. */
  lemma GapRows(log: seq<Row>, first: nat, fetched: seq<Row>, total: nat, p: nat, k: nat, lines: seq<Row>)
    requires |fetched| <= total <= |log| && first <= |log| && fetched == log[total - |fetched|..total]
    requires k <= p == Clamp(first - (total - |fetched|), |fetched|) && (k > 0 ==> first <= total)
    requires lines == fetched[..p]
    ensures k <= first && |lines| == p && lines[p - k..] == log[first - k..first]
  {
    if k == 0 {
      assert lines[p..] == [] && log[first..first] == [];
    } else {
      SliceOfSlice(log, total - |fetched|, |fetched|, p, k);
      assert total - |fetched| + p == first;
    }
  }

  /** With room for the gap it reaches back to the start of the fetched range, or as far as it already did. */
  lemma TakenReachesBack(h: Hist, n: nat, total: nat)
    requires n <= total <= h.total && h.first <= total && h.first - (total - n) <= Room(h)
    ensures h.first - Taken(h, n, total) == if h.first < total - n then h.first else total - n
  {
  }

  /**
   Among rightly labelled clients that are not behind, the merge is right
   exactly when the history still reaches back to the end of the fetched range
   or has no room for anything: a history cleared while the answer was on its
   way gets the old rows back under wrong numbers.
   */
  lemma ReconciledIff(log: seq<Row>, h: Hist, fetched: seq<Row>, total: nat)
    requires SliceOf(log, h) && total <= h.total && |log| < TWO_TO_THE_64 && AllDistinct(log)
    requires 0 < |fetched| <= total && fetched == log[total - |fetched|..total]
    ensures SliceOf(log, Reconciled(h, fetched, total)) <==> h.first <= total || Room(h) == 0
  {
    if h.first <= total || Room(h) == 0 {
      GapIsFilled(log, h, fetched, total);
    } else {
      var n := |fetched|;
      var k := Kept(h, n);
      var r := Reconciled(h, fetched, total);
      assert fetched[..n] == fetched;
      assert r.first == h.first - k && r.items[0] == fetched[n - k] == log[total - k];
      assert log[total - k] != log[r.first];
      assert r.items != log[r.first..r.total];
    }
  }

  /** The failing input: a reset clears the history after the server took its snapshot of one row. */
  lemma ClearedHistoryIsMislabelled()
    ensures var log := ["a", "b"];
            var h := Cleared(Hist(log, 0, 2, 10000));
            var r := Reconciled(h, ["a"], 1);
            SliceOf(log, h) && r.items == ["a"] && r.first == 1 && !SliceOf(log, r)
  {
    var log := ["a", "b"];
    var h := Cleared(Hist(log, 0, 2, 10000));
    assert log[2..2] == [];
    assert ["a"][..1] == ["a"] && ["a"][0..] + [] == ["a"];
    var r := Reconciled(h, ["a"], 1);
    assert log[r.first..r.total] == ["b"];
    assert "a"[0] != "b"[0];
  }

  // ── Chunks and live output, interleaved ────────────────────────────────────

  datatype Fetch = Fetch(hist: Hist, syncBuf: seq<Row>, serverTotal: nat, synced: bool)

  datatype Input = Live(e: Event) | Reply(r: Response)

  function OnReply(f: Fetch, r: Response): Fetch {
    if f.synced then f
    else if r.error then f.(synced := true)
    else
      var buf := r.lines + f.syncBuf;
      if !r.done then f.(syncBuf := buf, serverTotal := r.total)
      else Fetch(Reconciled(f.hist, buf, r.scrollbackTotal), [], r.total, true)
  }

  function OnInput(f: Fetch, x: Input): Fetch {
    match x
    case Live(e) => f.(hist := ApplyEvent(f.hist, e))
    case Reply(r) => OnReply(f, r)
  }

  function Through(f: Fetch, xs: seq<Input>): Fetch {
    if xs == [] then f else OnInput(Through(f, xs[..|xs| - 1]), xs[|xs| - 1])
  }

  function Replies(xs: seq<Input>): seq<Response> {
    if xs == [] then []
    else Replies(xs[..|xs| - 1]) + (if xs[|xs| - 1].Reply? then [xs[|xs| - 1].r] else [])
  }

  function LiveRows(xs: seq<Input>): seq<Row> {
    if xs == [] then []
    else
      var last := xs[|xs| - 1];
      LiveRows(xs[..|xs| - 1]) + (if last.Live? && last.e.Screen? then last.e.rows else [])
  }

  /** The history reaches back to the end of the fetched range, or is full: live output alone never breaks this. */
  predicate Reaches(h: Hist, total: nat) { h.first <= total || Room(h) == 0 }

  lemma {:induction false} PushKeepsReach(h: Hist, rows: seq<Row>, total: nat)
    requires Reaches(h, total) && 0 < h.max && |h.items| <= h.max
    ensures Reaches(PushAll(h, rows), total)
    decreases |rows|
  {
    if rows != [] {
      PushKeepsReach(Push(h, rows[0]), rows[1..], total);
    }
  }

  lemma ContinueSplit(log: seq<Row>, from: nat, a: seq<Row>, b: seq<Row>)
    requires LogContinues(log, from, a + b)
    ensures LogContinues(log, from, a) && LogContinues(log, from + |a|, b)
  {
    assert log[from..from + |a|] == (a + b)[..|a|];
    assert log[from + |a|..from + |a| + |b|] == (a + b)[|a|..];
  }

  lemma InputsOne(f: Fetch, xs: seq<Input>, x: Input)
    ensures Through(f, xs + [x]) == OnInput(Through(f, xs), x)
    ensures Replies(xs + [x]) == Replies(xs) + if x.Reply? then [x.r] else []
    ensures LiveRows(xs + [x]) == LiveRows(xs) + if x.Live? && x.e.Screen? then x.e.rows else []
  {
    assert (xs + [x])[..|xs|] == xs;
  }

  /** A fetch that has just been asked for. */
  predicate Asked(f: Fetch) { !f.synced && f.syncBuf == [] && 0 < f.hist.max }

  ghost predicate Unfinished(rs: seq<Response>) {
    forall r :: r in rs ==> !r.error && !r.done
  }

  lemma {:induction false} PushAllCounts(h: Hist, rows: seq<Row>)
    ensures PushAll(h, rows).total == h.total + |rows| && PushAll(h, rows).max == h.max
    decreases |rows|
  {
    if rows != [] {
      PushAllCounts(Push(h, rows[0]), rows[1..]);
    }
  }

  lemma EventCounts(h: Hist, e: Event)
    ensures var g := ApplyEvent(h, e);
            g.max == h.max && g.total == h.total + |if e.Screen? then e.rows else []|
  {
    if e.Screen? {
      PushAllCounts(h, e.rows);
    }
  }

  /** Part-way through an answer, whatever the history: the pieces so far are buffered, the total counts live rows. */
  lemma {:induction false} Buffers(f: Fetch, xs: seq<Input>)
    requires Asked(f) && Unfinished(Replies(xs))
    ensures var g := Through(f, xs);
            && !g.synced && g.syncBuf == Rebuilt(Replies(xs))
            && g.hist.max == f.hist.max && g.hist.total == f.hist.total + |LiveRows(xs)|
  {
    if xs != [] {
      var init, last := xs[..|xs| - 1], xs[|xs| - 1];
      assert xs == init + [last];
      InputsOne(f, init, last);
      FewerReplies(init, last);
      Buffers(f, init);
      match last
      case Live(e) =>
        EventCounts(Through(f, init).hist, e);
        assert Replies(init) + [] == Replies(init);
      case Reply(r) =>
        RebuiltOne(Replies(init), r);
        assert LiveRows(init) + [] == LiveRows(init);
    }
  }

  lemma FewerReplies(init: seq<Input>, last: Input)
    requires Unfinished(Replies(init + [last]))
    ensures Unfinished(Replies(init)) && (last.Reply? ==> !last.r.error && !last.r.done)
  {
    InputsOne(Fetch(EmptyHist(0), [], 0, false), init, last);
    var rs := Replies(init + [last]);
    assert forall r :: r in Replies(init) ==> r in rs;
    assert last.Reply? ==> last.r in rs;
  }

  /** A client whose next live row is the one its own count says, and whose labels are right. */
  ghost predicate Synchronous(log: seq<Row>, h: Hist, total: nat) {
    SliceOf(log, h) && 0 < h.max && |h.items| <= h.max && Reaches(h, total)
  }

  lemma LiveStep(log: seq<Row>, h: Hist, e: Event, total: nat)
    requires Synchronous(log, h, total) && e != Reset
    requires LogContinues(log, h.total, if e.Screen? then e.rows else [])
    ensures Synchronous(log, ApplyEvent(h, e), total)
  {
    if e.Screen? {
      PushAllSlices(log, h, e.rows);
      PushKeepsReach(h, e.rows, total);
    }
  }

  /** Live output alone keeps such a client so, fetching or not. */
  lemma {:induction false} StaysSynchronous(log: seq<Row>, f: Fetch, xs: seq<Input>, total: nat)
    requires Synchronous(log, f.hist, total) && LogContinues(log, f.hist.total, LiveRows(xs)) && Live(Reset) !in xs
    requires f.synced || (Asked(f) && Unfinished(Replies(xs)))
    ensures Synchronous(log, Through(f, xs).hist, total)
    ensures Through(f, xs).synced == f.synced && Through(f, xs).hist.total == f.hist.total + |LiveRows(xs)|
  {
    if xs != [] {
      var init, last := xs[..|xs| - 1], xs[|xs| - 1];
      assert xs == init + [last];
      InputsOne(f, init, last);
      if !f.synced {
        FewerReplies(init, last);
      }
      ContinueSplit(log, f.hist.total, LiveRows(init), if last.Live? && last.e.Screen? then last.e.rows else []);
      StaysSynchronous(log, f, init, total);
      if last.Live? {
        assert last in xs;
        LiveStep(log, Through(f, init).hist, last.e, total);
        EventCounts(Through(f, init).hist, last.e);
      }
    }
  }

  /** One whole answer has been read, its last piece just now. */
  ghost predicate Answered(log: seq<Row>, xs: seq<Input>, lines: seq<Row>, total: nat) {
    && xs != [] && xs[|xs| - 1].Reply? && WholeAnswer(Replies(xs), lines, total)
    && |lines| <= total <= |log| && lines == log[total - |lines|..total]
  }

  /** The last piece of an answer merges the whole of it into the history as it is by then. */
  lemma AnswerMerges(log: seq<Row>, f: Fetch, xs: seq<Input>, lines: seq<Row>, total: nat)
    requires Asked(f) && Answered(log, xs, lines, total)
    ensures var init := xs[..|xs| - 1];
            && Unfinished(Replies(init)) && LiveRows(xs) == LiveRows(init)
            && Through(f, init).hist.total == f.hist.total + |LiveRows(xs)|
            && Through(f, init).hist.max == f.hist.max
            && Through(f, xs) == Fetch(Reconciled(Through(f, init).hist, lines, total), [], |lines|, true)
  {
    var init, last := xs[..|xs| - 1], xs[|xs| - 1].r;
    assert Replies(xs) == Replies(init) + [last];
    assert forall i :: 0 <= i < |Replies(init)| ==> Replies(init)[i] == Replies(xs)[i];
    Buffers(f, init);
    RebuiltOne(Replies(init), last);
    assert LiveRows(init) + [] == LiveRows(init);
  }

  /**
   Main result: when the last chunk arrives, a client that counts fewer rows
   than the server did is rebuilt from the answer, whatever its history was and
   whatever live output came in between, resets included. Any other client,
   provided its labels were right and live rows continued them, keeps what it
   had and is extended backwards over the fetched range as far as it has room.
   */
  lemma FetchCompletes(log: seq<Row>, f: Fetch, xs: seq<Input>, lines: seq<Row>, total: nat)
    requires Asked(f) && Answered(log, xs, lines, total) && |log| < TWO_TO_THE_64
    requires f.hist.total + |LiveRows(xs)| < total ||
             (Synchronous(log, f.hist, total) && LogContinues(log, f.hist.total, LiveRows(xs)) && Live(Reset) !in xs)
    ensures var before := Through(f, xs[..|xs| - 1]).hist;
            var r := Through(f, xs);
            && r.synced && r.syncBuf == [] && SliceOf(log, r.hist)
            && before.total == f.hist.total + |LiveRows(xs)|
            && r.hist.max == before.max && |r.hist.items| <= r.hist.max
            && (if before.total < total then
                  r.hist.total == total && r.hist.first == total - if |lines| <= before.max then |lines| else before.max
                else
                  r.hist.total == before.total && r.hist.first == before.first - Taken(before, |lines|, total))
  {
    var init := xs[..|xs| - 1];
    AnswerMerges(log, f, xs, lines, total);
    var before := Through(f, init).hist;
    if before.total < total {
      BehindIsRebuilt(log, before, lines, total);
    } else {
      assert forall x :: x in init ==> x in xs;
      StaysSynchronous(log, f, init, total);
      GapIsFilled(log, before, lines, total);
    }
  }

  // ── When the labels last ───────────────────────────────────────────────────

  /**
   A client's place in the server's log when it asks: at is the number of the
   next row it will be sent. Its own count may be lower, as it is after joining
   late or after a snapshot that skipped rows. The server answers after sending
   every row below total, so those rows come before the last chunk.
   */
  ghost predicate Placed(log: seq<Row>, f: Fetch, at: nat, xs: seq<Input>, total: nat) {
    && Asked(f) && f.hist.total <= at <= total <= at + |LiveRows(xs)|
    && (f.hist.total == at ==> SliceOf(log, f.hist) && |f.hist.items| <= f.hist.max)
    && LogContinues(log, at, LiveRows(xs))
  }

  /** Right labels, on the rows up to the next one to be sent. */
  ghost predicate InStepAt(log: seq<Row>, h: Hist, at: nat) { SliceOf(log, h) && h.total == at }

  /** After the fetch the client is in step exactly when it was before, or no row past the answer had come by then. */
  lemma FetchedInStepIff(log: seq<Row>, f: Fetch, at: nat, xs: seq<Input>, lines: seq<Row>, total: nat)
    requires Placed(log, f, at, xs, total) && Answered(log, xs, lines, total) && |log| < TWO_TO_THE_64
    requires Live(Reset) !in xs
    ensures var g := Through(f, xs);
            && g.synced && g.hist.max == f.hist.max
            && (InStepAt(log, g.hist, at + |LiveRows(xs)|) <==> g.hist.total == at + |LiveRows(xs)|)
            && (g.hist.total == at + |LiveRows(xs)| <==> f.hist.total == at || at + |LiveRows(xs)| == total)
            && (g.hist.total == at + |LiveRows(xs)| ==> |g.hist.items| <= g.hist.max)
  {
    AnswerMerges(log, f, xs, lines, total);
    if f.hist.total == at || f.hist.total + |LiveRows(xs)| < total {
      FetchCompletes(log, f, xs, lines, total);
    }
  }

  lemma {:induction false} PushAllEnds(h: Hist, rows: seq<Row>)
    requires 0 < h.max && rows != []
    ensures var r := PushAll(h, rows); r.items != [] && r.items[|r.items| - 1] == rows[|rows| - 1]
    decreases |rows|
  {
    if |rows| == 1 {
      assert PushAll(h, rows) == PushAll(Push(h, rows[0]), []);
    } else {
      PushAllEnds(Push(h, rows[0]), rows[1..]);
    }
  }

  /** Once the fetch is over, live rows are counted and the last of them ends the history. */
  lemma {:induction false} LiveRowsEnd(f: Fetch, ys: seq<Input>)
    requires f.synced && 0 < f.hist.max && Live(Reset) !in ys
    ensures var g := Through(f, ys);
            && g.synced && g.hist.max == f.hist.max && g.hist.total == f.hist.total + |LiveRows(ys)|
            && (LiveRows(ys) != [] ==>
                  g.hist.items != [] && g.hist.items[|g.hist.items| - 1] == LiveRows(ys)[|LiveRows(ys)| - 1])
  {
    if ys != [] {
      var init, last := ys[..|ys| - 1], ys[|ys| - 1];
      assert ys == init + [last];
      InputsOne(f, init, last);
      LiveRowsEnd(f, init);
      var rows := if last.Live? && last.e.Screen? then last.e.rows else [];
      if last.Live? {
        assert last in ys;
        EventCounts(Through(f, init).hist, last.e);
      }
      if rows != [] {
        PushAllEnds(Through(f, init).hist, rows);
      } else {
        assert LiveRows(init) + [] == LiveRows(init);
      }
    }
  }

  /** The last row of a rightly labelled history is the newest one it counts. */
  lemma EndsAtItsTotal(log: seq<Row>, h: Hist, at: nat)
    requires h.items != [] && 0 < at <= |log| && h.items[|h.items| - 1] == log[at - 1] && AllDistinct(log)
    ensures SliceOf(log, h) ==> h.total == at
  {
    assert SliceOf(log, h) ==> h.items[|h.items| - 1] == log[h.total - 1];
  }

  lemma LaterRows(log: seq<Row>, g: Fetch, now: nat, ys: seq<Input>)
    requires g.synced && 0 < g.hist.max && Live(Reset) !in ys && AllDistinct(log)
    requires LiveRows(ys) != [] && LogContinues(log, now, LiveRows(ys))
    requires g.hist.total == now ==> InStepAt(log, g.hist, now) && |g.hist.items| <= g.hist.max
    ensures SliceOf(log, Through(g, ys).hist) <==> g.hist.total == now
  {
    LiveRowsEnd(g, ys);
    if g.hist.total == now {
      StaysSynchronous(log, g, ys, now);
    } else {
      assert LiveRows(ys)[|LiveRows(ys)| - 1] == log[now..now + |LiveRows(ys)|][|LiveRows(ys)| - 1];
      EndsAtItsTotal(log, Through(g, ys).hist, now + |LiveRows(ys)|);
    }
  }

  /**
   Main result, for the labels to last: once more live rows arrive after the
   fetch, the history is rightly labelled exactly when the client was in step
   before it asked, or every row sent before the last chunk lay below the
   answer. Otherwise rows pushed during the fetch are lost or keep low numbers.
   */
  lemma FetchLabelsIff(log: seq<Row>, f: Fetch, at: nat, xs: seq<Input>, lines: seq<Row>, total: nat, ys: seq<Input>)
    requires Placed(log, f, at, xs, total) && Answered(log, xs, lines, total) && |log| < TWO_TO_THE_64
    requires Live(Reset) !in xs && Live(Reset) !in ys && AllDistinct(log)
    requires LiveRows(ys) != [] && LogContinues(log, at + |LiveRows(xs)|, LiveRows(ys))
    ensures SliceOf(log, Through(Through(f, xs), ys).hist) <==> f.hist.total == at || at + |LiveRows(xs)| == total
  {
    FetchedInStepIff(log, f, at, xs, lines, total);
    LaterRows(log, Through(f, xs), at + |LiveRows(xs)|, ys);
  }

  /**
   The failing inputs. A late joiner gets a row between query and last chunk: it is lost, and the next
   one is off by one.
   */
  lemma LateJoinerLosesARow(a: Row, b: Row, c: Row, d: Row)
    requires c != d
    ensures var xs := [Live(Screen(0, [c])), Reply(Response(false, [a, b], 2, true, 2)), Live(Screen(0, [d]))];
            var r := Through(Fetch(EmptyHist(10000), [], 0, false), xs).hist;
            r == Hist([a, b, d], 0, 3, 10000) && !SliceOf([a, b, c, d], r)
  {
    var f := Fetch(EmptyHist(10000), [], 0, false);
    var reply := Response(false, [a, b], 2, true, 2);
    ThroughThree(f, Live(Screen(0, [c])), Reply(reply), Live(Screen(0, [d])));
    PushOne(f.hist, c);
    assert reply.lines + [] == [a, b];
    var lines := [a, b];
    assert lines[..2] == lines && lines[0..] + [] == lines;
    assert Reconciled(Push(f.hist, c), lines, 2) == Hist(lines, 0, 2, 10000);
    PushOne(Hist(lines, 0, 2, 10000), d);
    assert lines + [d] == [a, b, d];
    assert [a, b, c, d][0..3][2] == c;
  }

  /** Or the count of a late joiner has caught up with the answer, and nothing is fetched. */
  lemma LateJoinerFetchesNothing(a: Row, b: Row)
    requires a != b
    ensures var xs := [Live(Screen(0, [b])), Reply(Response(false, [a], 1, true, 1))];
            var r := Through(Fetch(EmptyHist(10000), [], 0, false), xs).hist;
            r == Hist([b], 0, 1, 10000) && !SliceOf([a, b], r)
  {
    var f := Fetch(EmptyHist(10000), [], 0, false);
    var reply := Response(false, [a], 1, true, 1);
    ThroughTwo(f, Live(Screen(0, [b])), Reply(reply));
    PushOne(f.hist, b);
    assert reply.lines + [] == [a];
    PrependNothing(Push(f.hist, b));
    assert [a][..0] == [] && [] + [b] == [b];
    assert [a, b][0..1][0] == a;
  }

  lemma PushOne(h: Hist, row: Row)
    ensures PushAll(h, [row]) == Push(h, row)
  {
    assert [row][1..] == [];
  }

  lemma ThroughTwo(f: Fetch, x: Input, y: Input)
    ensures Through(f, [x, y]) == OnInput(OnInput(f, x), y)
  {
    InputsOne(f, [], x);
    InputsOne(f, [x], y);
    assert [x] + [y] == [x, y] && [] + [x] == [x];
  }

  lemma ThroughThree(f: Fetch, x: Input, y: Input, z: Input)
    ensures Through(f, [x, y, z]) == OnInput(OnInput(OnInput(f, x), y), z)
  {
    ThroughTwo(f, x, y);
    InputsOne(f, [x, y], z);
    assert [x, y] + [z] == [x, y, z];
  }

  // ── The layer itself ───────────────────────────────────────────────────────

  class ScrollbackLayer {
    const term: TerminalLayer
    var offset: nat
    var serverTotal: nat
    var synced: bool
    var syncBuf: seq<Row>
    var anchorTotal: nat
    var anchorInitted: bool
    // The history the offset was last set over.
    ghost var anchorHist: Hist

    ghost predicate Anchored()
      reads this
    {
      anchorInitted ==> anchorTotal == anchorHist.total
    }

    /** Opened over a tab whose rows are fetched already, there is nothing to wait for; otherwise they are asked for. */
    static method Open(term: TerminalLayer, offset: nat) returns (layer: ScrollbackLayer, asked: bool)
      requires term.Valid()
      modifies term`scrollbackRequested, term`askedAt
      ensures fresh(layer) && layer.term == term && layer.offset == offset && layer.syncBuf == [] && layer.Anchored()
      ensures term.Valid() && asked == !old(term.scrollbackRequested) && layer.synced == !asked
    {
      layer := new ScrollbackLayer(term, offset);
      asked := term.AskScrollback();
      if !asked {
        layer.synced := true;
      }
    }

    constructor (term: TerminalLayer, offset: nat)
      ensures this.term == term && this.offset == offset && !synced && syncBuf == [] && !anchorInitted && Anchored()
    {
      this.term, this.offset := term, offset;
      serverTotal, synced, syncBuf, anchorTotal, anchorInitted := 0, false, [], 0, false;
    }

    /** Pushed onto the layer stack. */
    method Activate()
      modifies this`anchorTotal, this`anchorInitted, this`anchorHist
      ensures term.hscreen == null ==> anchorInitted == old(anchorInitted)
      ensures term.hscreen != null ==> Anchored() && anchorInitted && anchorHist == term.History()
    {
      if term.hscreen != null {
        anchorTotal, anchorInitted, anchorHist := term.hscreen.totalAdded, true, term.History();
      }
    }

    function State(): Fetch
      reads this, term, term.hscreen
    {
      Fetch(term.History(), syncBuf, serverTotal, synced)
    }

    /** Update on a scrollback response. Without a local screen the rows are only kept for display. */
    method HandleResponse(r: Response)
      requires term.History().total < TWO_TO_THE_64 && term.History().first < TWO_TO_THE_64
      requires r.scrollbackTotal < TWO_TO_THE_64
      modifies this, term.hscreen
      ensures term.hscreen != null || r.error || !r.done ==> State() == OnReply(old(State()), r)
      ensures term.hscreen == null && !old(synced) && !r.error && r.done ==>
                synced && syncBuf == r.lines + old(syncBuf) && term.History() == old(term.History())
      ensures old(synced) || r.error ==>
                synced && syncBuf == old(syncBuf) && serverTotal == old(serverTotal)
                && term.History() == old(term.History())
      ensures !old(synced) && !r.error ==> serverTotal == r.total && synced == r.done
      ensures offset == old(offset) && (old(Anchored()) ==> Anchored())
      ensures !old(synced) && synced && !r.error && term.hscreen != null ==>
                anchorInitted && anchorHist == term.History()
    {
      if !synced {
        HandleSyncChunk(r);
      }
    }

    method HandleSyncChunk(r: Response)
      requires !synced && term.History().total < TWO_TO_THE_64 && term.History().first < TWO_TO_THE_64
      requires r.scrollbackTotal < TWO_TO_THE_64
      modifies this, term.hscreen
      ensures term.hscreen != null || r.error || !r.done ==> State() == OnReply(old(State()), r)
      ensures term.hscreen == null && !r.error && r.done ==>
                synced && syncBuf == r.lines + old(syncBuf) && term.History() == old(term.History())
      ensures if r.error then synced && syncBuf == old(syncBuf) && serverTotal == old(serverTotal)
                              && term.History() == old(term.History())
              else serverTotal == r.total && synced == r.done
      ensures offset == old(offset) && (old(Anchored()) ==> Anchored())
      ensures synced && !r.error && term.hscreen != null ==> anchorInitted && anchorHist == term.History()
    {
      if r.error {
        synced := true;
        return;
      }
      serverTotal := r.total;
      syncBuf := r.lines + syncBuf;
      if !r.done {
        return;
      }
      if term.hscreen == null {
        synced := true;
        return;
      }
      Merge(term.hscreen, syncBuf, r.scrollbackTotal);
      syncBuf := [];
      synced := true;
      anchorTotal, anchorInitted, anchorHist := term.hscreen.totalAdded, true, term.History();
    }

    static method Merge(hs: HistoryScreen, fetched: seq<Row>, total: nat)
      requires hs.firstSeq < TWO_TO_THE_64 && total < TWO_TO_THE_64
      modifies hs
      ensures hs.State() == Reconciled(old(hs.State()), fetched, total)
    {
      var responseFirstSeq: int := total - |fetched|;
      if hs.totalAdded < total {
        hs.ResetHistory();
        hs.SetTotalAdded(total);
      }
      ghost var base := hs.State();
      assert base == MergeBase(old(hs.State()), total);
      var prependCount: int := hs.firstSeq - responseFirstSeq;
      if prependCount < 0 {
        prependCount := 0;
      }
      if prependCount > |fetched| {
        prependCount := |fetched|;
      }
      assert prependCount == Clamp(base.first - (total - |fetched|), |fetched|);
      if prependCount > 0 {
        hs.PrependHistory(fetched[..prependCount]);
      } else {
        PrependNothing(base);
        assert fetched[..0] == [];
      }
    }

    /** The virtual buffer under the view. */
    function Contents(screen: seq<Row>): Layout
      reads this, term, term.hscreen
    {
      var history := term.History().items;
      var gap := if synced then 0 else serverTotal - |syncBuf| - |history|;
      Layout(if gap < 0 then 0 else gap, syncBuf, history, screen)
    }

    function ScrollbackTotal(): nat
      reads this, term, term.hscreen
    {
      var local := |term.History().items|;
      if !synced && serverTotal > local then serverTotal else local
    }

    /**
     The offset never runs past the oldest line, and the oldest line can be scrolled to exactly when nothing
     fetched is on display, or the answer under way counts all that is loaded.
     */
    lemma TopIsReachedIff(screen: seq<Row>)
      ensures ScrollbackTotal() <= Above(Contents(screen))
      ensures ScrollbackTotal() == Above(Contents(screen)) <==>
              syncBuf == [] || (!synced && |syncBuf| + |term.History().items| <= serverTotal)
      ensures synced && syncBuf == [] ==> Contents(screen).gap == 0 && ScrollbackTotal() == |term.History().items|
    {
    }

    /** Called before every read of the offset. */
    method AdvanceAnchor() returns (maxOffset: nat)
      requires Anchored()
      modifies this`offset, this`anchorTotal, this`anchorInitted, this`anchorHist
      ensures maxOffset == ScrollbackTotal() && Anchored()
      ensures term.hscreen == null ==> offset == old(offset)
      ensures term.hscreen != null ==>
                && anchorInitted && anchorHist == term.History()
                && offset == if old(anchorInitted)
                  then Advanced(old(offset), old(anchorTotal), term.History().total, maxOffset)
                             else old(offset)
    {
      maxOffset := ScrollbackTotal();
      if term.hscreen == null {
        return;
      }
      var cur := term.hscreen.totalAdded;
      anchorHist := term.History();
      if !anchorInitted {
        anchorTotal := cur;
        anchorInitted := true;
        return;
      }
      if cur > anchorTotal && offset > 0 {
        offset := offset + (cur - anchorTotal);
        if offset > maxOffset {
          offset := maxOffset;
        }
      }
      anchorTotal := cur;
    }

    /**
     The lines on view are a window over the virtual buffer. While output
     arrives it keeps to the rows the user scrolled back to for as long as they
     are retained, then to the oldest row; at the bottom it is the live screen.
     */
    method View(height: nat, screen: seq<Row>) returns (lines: seq<Line>)
      requires Anchored() && |screen| == height
      modifies this`offset, this`anchorTotal, this`anchorInitted, this`anchorHist
      ensures Anchored() && |lines| == height
      ensures exists start :: 0 <= start <= Above(Contents(screen)) && IsWindow(Contents(screen), start, lines)
      ensures term.hscreen != null && old(anchorInitted) && 0 < old(offset) && (synced ==> syncBuf == []) ==>
                KeepsTop(old(anchorHist), old(offset), term.History(), !synced, lines)
      ensures old(offset) == 0 ==> forall i :: 0 <= i < height ==> lines[i] == Cells(screen[i])
    {
      var maxOffset := AdvanceAnchor();
      var gapLen := GapLen();
      var totalLines := gapLen + |syncBuf| + |term.History().items| + |screen|;
      var shift := offset;
      if shift > maxOffset {
        shift := maxOffset;
      }
      var startIdx: int := totalLines - height - shift;
      if startIdx < 0 {
        startIdx := 0;
      }
      lines := Draw(startIdx, gapLen, height, screen);
      if shift == 0 {
        BottomIsTheScreen(Contents(screen), lines);
      }
      if term.hscreen != null && old(anchorInitted) && 0 < old(offset) && (synced ==> syncBuf == []) {
        TopIsReachedIff(screen);
        KeepsToItsTop(old(anchorHist), old(offset), term.History(), Contents(screen), !synced, maxOffset, startIdx,
                      lines);
      }
    }

    method GapLen() returns (gapLen: nat)
      ensures forall screen :: gapLen == Contents(screen).gap
    {
      gapLen := 0;
      if !synced && serverTotal > |syncBuf| + |term.History().items| {
        gapLen := serverTotal - |syncBuf| - |term.History().items|;
      }
    }

    method Draw(startIdx: nat, gapLen: nat, height: nat, screen: seq<Row>) returns (lines: seq<Line>)
      requires gapLen == Contents(screen).gap
      ensures |lines| == height && IsWindow(Contents(screen), startIdx, lines)
    {
      var history := term.History().items;
      var syncEnd := gapLen + |syncBuf|;
      var histEnd := syncEnd + |history|;
      lines := [];
      for i := 0 to height
        invariant |lines| == i && IsWindow(Contents(screen), startIdx, lines)
      {
        var idx := startIdx + i;
        var line := Cells([]);
        if idx < gapLen {
          line := Unloaded(idx % 2 == 0);
        } else if idx < syncEnd {
          line := Cells(syncBuf[idx - gapLen]);
        } else if idx < histEnd {
          line := Cells(history[idx - syncEnd]);
        } else if idx - histEnd < |screen| {
          line := Cells(screen[idx - histEnd]);
        }
        lines := lines + [line];
      }
    }
  }
}
