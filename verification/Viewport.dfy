/**
 What scrollback mode puts on the screen (internal/tui/scrollback.go): a window
 over one virtual buffer of rows not fetched yet, rows fetched, the local
 history and the live screen, held on the rows the user scrolled back to.
 */
module Viewport {
  import opened Capture
  import opened Scrollback

  datatype Line = Unloaded(dotted: bool) | Cells(row: Row)

  /** The virtual buffer, oldest first. */
  datatype Layout = Layout(gap: nat, fetched: seq<Row>, history: seq<Row>, screen: seq<Row>)

  function Loaded(l: Layout): seq<Row> { l.fetched + l.history + l.screen }

  /** Everything above the live screen. */
  function Above(l: Layout): nat { l.gap + |l.fetched| + |l.history| }

  function LineAt(l: Layout, i: nat): Line {
    if i < l.gap then Unloaded(i % 2 == 0)
    else if i - l.gap < |Loaded(l)| then Cells(Loaded(l)[i - l.gap])
    else Cells([])
  }

  /** The lines on view are some height lines of the buffer in a row, from start on. */
  ghost predicate IsWindow(l: Layout, start: nat, lines: seq<Line>) {
    forall i :: 0 <= i < |lines| ==> lines[i] == LineAt(l, start + i)
  }

  function Min(a: nat, b: nat): nat { if a < b then a else b }

  /** The lines from the top of the view on are the rows of the log from number top on, k of them. */
  ghost predicate ShowsRows(log: seq<Row>, top: nat, k: nat, lines: seq<Line>) {
    && top + k <= |log| && k <= |lines|
    && forall i :: 0 <= i < k ==> lines[i] == Cells(log[top + i])
  }

  /** A line of local history on view is the row of the log that its distance from the newest row says. */
  lemma HistoryLine(log: seq<Row>, h: Hist, l: Layout, offset: nat, i: nat)
    requires SliceOf(log, h) && l.history == h.items && i < offset <= |h.items|
    ensures LineAt(l, Above(l) - offset + i) == Cells(log[h.total - offset + i])
  {
    var at := |h.items| - offset + i;
    assert Loaded(l)[|l.fetched| + at] == (l.history + l.screen)[at] == h.items[at];
  }

  /** A view that starts offset lines above a screen of its own height shows that many of the newest history rows. */
  lemma HistoryOnView(log: seq<Row>, h: Hist, l: Layout, offset: nat, lines: seq<Line>)
    requires SliceOf(log, h) && l.history == h.items && offset <= |h.items|
    requires IsWindow(l, Above(l) - offset, lines)
    ensures ShowsRows(log, h.total - offset, Min(offset, |lines|), lines)
  {
    forall i | 0 <= i < Min(offset, |lines|) ensures lines[i] == Cells(log[h.total - offset + i]) {
      HistoryLine(log, h, l, offset, i);
    }
  }

  /**
   The user scrolled to row top. While it is retained the view still starts
   with it; once it is gone, and nothing is being fetched, with the oldest row.
   */
  ghost predicate Pinned(log: seq<Row>, top: nat, h: Hist, height: nat, fetching: bool, lines: seq<Line>) {
    if h.first <= top then top <= h.total && ShowsRows(log, top, Min(h.total - top, height), lines)
    else !fetching ==> ShowsRows(log, h.first, Min(|h.items|, height), lines)
  }

  /** The view keeps to row top when it starts as many rows above the screen as now follow that row, or at the top. */
  lemma StaysPinned(log: seq<Row>, top: nat, h: Hist, l: Layout, fetching: bool, start: nat, lines: seq<Line>)
    requires SliceOf(log, h) && l.history == h.items && top <= h.total && (fetching || (l.gap == 0 && l.fetched == []))
    requires IsWindow(l, start, lines)
    requires start == if h.first <= top then Above(l) - (h.total - top) else if fetching then start else 0
    ensures Pinned(log, top, h, |lines|, fetching, lines)
  {
    if h.first <= top {
      HistoryOnView(log, h, l, h.total - top, lines);
    } else if !fetching {
      HistoryOnView(log, h, l, |h.items|, lines);
    }
  }

  /** The offset after rows were pushed: further from the bottom by as many, unless the user is at the bottom. */
  function Advanced(offset: nat, anchor: nat, cur: nat, maxOffset: nat): nat {
    if cur > anchor && offset > 0 then Min(offset + (cur - anchor), maxOffset) else offset
  }

  /** By every log both histories are labelled after, the view keeps to the row offset rows above the older screen. */
  ghost predicate KeepsTop(was: Hist, offset: nat, h: Hist, fetching: bool, lines: seq<Line>) {
    offset <= |was.items| && was.total <= h.total ==>
      forall log :: SliceOf(log, was) && SliceOf(log, h) ==>
        Pinned(log, was.total - offset, h, |lines|, fetching, lines)
  }

  /** The offset advanced by the rows pushed, capped, keeps the view to its top row. */
  lemma KeepsToItsTop(was: Hist, offset: nat, h: Hist, l: Layout, fetching: bool, maxOffset: nat, start: nat,
                      lines: seq<Line>)
    requires 0 < offset && l.history == h.items && IsWindow(l, start, lines)
    requires |h.items| <= maxOffset <= Above(l)
    requires !fetching ==> l.fetched == [] && l.gap == 0 && maxOffset == |h.items|
    requires start == Above(l) - Min(Advanced(offset, was.total, h.total, maxOffset), maxOffset)
    ensures KeepsTop(was, offset, h, fetching, lines)
  {
    if offset <= |was.items| && was.total <= h.total {
      forall log | SliceOf(log, was) && SliceOf(log, h)
        ensures Pinned(log, was.total - offset, h, |lines|, fetching, lines)
      {
        StaysPinned(log, was.total - offset, h, l, fetching, start, lines);
      }
    }
  }

  /** At the bottom, a view as high as the screen is the screen. */
  lemma BottomIsTheScreen(l: Layout, lines: seq<Line>)
    requires |lines| == |l.screen| && IsWindow(l, Above(l), lines)
    ensures forall i :: 0 <= i < |lines| ==> lines[i] == Cells(l.screen[i])
  {
    forall i | 0 <= i < |lines| ensures lines[i] == Cells(l.screen[i]) {
      assert Loaded(l)[|l.fetched| + |l.history| + i] == l.screen[i];
    }
  }

  /**
   The rows fetched so far stand in front of the whole local history, which
   overlaps them: what the user scrolls through while an answer streams in is a
   part of the log exactly when nothing is fetched yet, the history is empty, or
   it begins where the answer ends.
   */
  lemma StreamingReadsIff(log: seq<Row>, h: Hist, fetched: seq<Row>, total: nat)
    requires SliceOf(log, h) && AllDistinct(log)
    requires |fetched| <= total <= |log| && fetched == log[total - |fetched|..total]
    ensures (exists a: nat :: LogContinues(log, a, fetched + h.items))
            <==> fetched == [] || h.items == [] || h.first == total
  {
    var rows := fetched + h.items;
    if fetched == [] {
      assert LogContinues(log, h.first, rows);
    } else if h.items == [] || h.first == total {
      assert LogContinues(log, total - |fetched|, rows);
    } else {
      forall a: nat | LogContinues(log, a, rows) ensures false {
        ReadsOn(log, a, fetched, h, total);
      }
    }
  }

  lemma ReadsOn(log: seq<Row>, a: nat, fetched: seq<Row>, h: Hist, total: nat)
    requires SliceOf(log, h) && h.items != [] && AllDistinct(log) && LogContinues(log, a, fetched + h.items)
    requires 0 < |fetched| <= total <= |log| && fetched == log[total - |fetched|..total]
    ensures h.first == total
  {
    var rows := fetched + h.items;
    assert log[a + |fetched| - 1] == rows[|fetched| - 1] == log[total - 1];
    assert log[a + |fetched|] == rows[|fetched|] == log[h.first];
  }

  /** The failing input: the newest row of a tab with one row of history is fetched before the older ones. */
  lemma StreamingShowsARowTwice()
    ensures var log := ["a", "b"];
            var h := Push(Hist([], 1, 1, 10000), "b");
            SliceOf(log, h) && ["b"] == log[1..2] && !exists a: nat :: LogContinues(log, a, ["b"] + h.items)
  {
    var log := ["a", "b"];
    var h := Push(Hist([], 1, 1, 10000), "b");
    assert h == Hist([] + ["b"], 1, 2, 10000);
    assert "a"[0] != "b"[0];
    assert log[1..2] == ["b"] == h.items;
    StreamingReadsIff(log, h, ["b"], 2);
  }
}
