/**
 Scrollback labelled by absolute sequence number (pkg/te/history_screen.go):
 the retained rows, the sequence number of the oldest one, and the number of
 the next row to be pushed.
 */
module Scrollback {
  import opened Capture

  const TWO_TO_THE_64: nat := 0x1_0000_0000_0000_0000

  datatype Hist = Hist(items: seq<Row>, first: nat, total: nat, max: nat)

  function EmptyHist(max: nat): Hist { Hist([], 0, 0, max) }

  /** A row scrolls off the screen into history, evicting the oldest one at capacity. */
  function Push(h: Hist, row: Row): Hist {
    if h.max == 0 then h.(total := h.total + 1)
    else if |h.items| == h.max then Hist(h.items[1..] + [row], h.first + 1, h.total + 1, h.max)
    else h.(items := h.items + [row], total := h.total + 1)
  }

  function PushAll(h: Hist, rows: seq<Row>): Hist
    decreases |rows|
  {
    if rows == [] then h else PushAll(Push(h, rows[0]), rows[1..])
  }

  function Cleared(h: Hist): Hist { h.(items := [], first := h.total) }

  function WithTotal(h: Hist, n: nat): Hist {
    h.(total := n, first := if h.items == [] then n else h.first)
  }

  function Room(h: Hist): nat { if |h.items| > h.max then 0 else h.max - |h.items| }

  /** How many of n prepended rows fit. */
  function Kept(h: Hist, n: nat): nat { if n > Room(h) then Room(h) else n }

  /** Older rows go in front; the oldest of them are dropped when they do not fit. The label wraps at 64 bits. */
  function Prepend(h: Hist, lines: seq<Row>): Hist {
    var k := Kept(h, |lines|);
    h.(items := lines[|lines| - k..] + h.items, first := (h.first - k) % TWO_TO_THE_64)
  }

  function ApplyEvent(h: Hist, e: Event): Hist {
    match e
    case Screen(_, rows) => PushAll(h, rows)
    case Reset => Cleared(h)
    case _ => h
  }

  function ApplyEvents(h: Hist, es: seq<Event>): Hist
    decreases |es|
  {
    if es == [] then h else ApplyEvents(ApplyEvent(h, es[0]), es[1..])
  }

  lemma PrependNothing(h: Hist)
    requires h.first < TWO_TO_THE_64
    ensures Prepend(h, []) == h
  {
    assert [] + h.items == h.items;
  }

  // ── Labels ─────────────────────────────────────────────────────────────────

  /** The documented invariant: the retained range lies below total, and an empty history starts at total. */
  predicate SeqInvariant(h: Hist) {
    h.first + |h.items| <= h.total && (h.items == [] ==> h.first == h.total)
  }

  /** The retained range ends at the newest row. */
  predicate Contiguous(h: Hist) { h.first + |h.items| == h.total }

  /** The retained rows are exactly the rows of log whose labels they carry, up to the newest one counted. */
  ghost predicate SliceOf(log: seq<Row>, h: Hist) {
    Contiguous(h) && h.total <= |log| && h.items == log[h.first..h.total]
  }

  /** The rows stand in the log from number from on, none missing, repeated or out of place. */
  ghost predicate LogContinues(log: seq<Row>, from: nat, rows: seq<Row>) {
    from + |rows| <= |log| && log[from..from + |rows|] == rows
  }

  ghost predicate AllDistinct(log: seq<Row>) {
    forall i, j :: 0 <= i < j < |log| ==> log[i] != log[j]
  }

  /** Pushing keeps the documented invariant exactly when the history has capacity. */
  lemma PushKeepsInvariantIff(h: Hist, row: Row)
    requires SeqInvariant(h) && |h.items| <= h.max
    ensures SeqInvariant(Push(h, row)) <==> h.max > 0
  {
  }

  /** The failing input, of the type itself: a history of capacity zero loses the invariant on its first row. */
  lemma ZeroCapacityLosesInvariant(row: Row)
    ensures SeqInvariant(EmptyHist(0)) && !SeqInvariant(Push(EmptyHist(0), row))
  {
  }

  /** Whether rows have scrolled off since the last reset, given whether some already had. */
  predicate RowsSinceReset(already: bool, es: seq<Event>)
    decreases |es|
  {
    if es == [] then already
    else RowsSinceReset(if es[0].Screen? then already || es[0].rows != [] else already && es[0] != Reset, es[1..])
  }

  lemma {:induction false} PushAllKeepsInvariant(h: Hist, rows: seq<Row>)
    requires SeqInvariant(h) && |h.items| <= h.max && h.max > 0
    ensures var r := PushAll(h, rows); SeqInvariant(r) && |r.items| <= r.max && r.max == h.max
    decreases |rows|
  {
    if rows != [] {
      PushKeepsInvariantIff(h, rows[0]);
      PushAllKeepsInvariant(Push(h, rows[0]), rows[1..]);
    }
  }

  lemma {:induction false} PushAllUncapped(h: Hist, rows: seq<Row>)
    requires h.max == 0
    ensures PushAll(h, rows) == h.(total := h.total + |rows|)
    decreases |rows|
  {
    if rows != [] {
      PushAllUncapped(Push(h, rows[0]), rows[1..]);
    }
  }

  lemma {:induction false} EventsKeepInvariant(h: Hist, es: seq<Event>)
    requires SeqInvariant(h) && |h.items| <= h.max && h.max > 0
    ensures SeqInvariant(ApplyEvents(h, es))
    decreases |es|
  {
    if es != [] {
      if es[0].Screen? {
        PushAllKeepsInvariant(h, es[0].rows);
      }
      EventsKeepInvariant(ApplyEvent(h, es[0]), es[1..]);
    }
  }

  lemma {:induction false} EventsWithoutCapacity(h: Hist, es: seq<Event>)
    requires h.max == 0 && h.items == [] && h.first <= h.total
    ensures SeqInvariant(ApplyEvents(h, es)) <==> !RowsSinceReset(h.first < h.total, es)
    decreases |es|
  {
    if es != [] {
      if es[0].Screen? {
        PushAllUncapped(h, es[0].rows);
      }
      EventsWithoutCapacity(ApplyEvent(h, es[0]), es[1..]);
    }
  }

  /** Over any run from an empty history, the invariant holds exactly given capacity or no row since the last reset. */
  lemma EventsKeepInvariantIff(max: nat, es: seq<Event>)
    ensures SeqInvariant(ApplyEvents(EmptyHist(max), es)) <==> max > 0 || !RowsSinceReset(false, es)
  {
    if max > 0 {
      EventsKeepInvariant(EmptyHist(max), es);
    } else {
      EventsWithoutCapacity(EmptyHist(max), es);
    }
  }

  /** Prepending keeps the documented invariant exactly when no more rows are kept than labels precede the history. */
  lemma PrependKeepsInvariantIff(h: Hist, lines: seq<Row>)
    requires SeqInvariant(h) && h.total + h.max < TWO_TO_THE_64
    ensures SeqInvariant(Prepend(h, lines)) <==> Kept(h, |lines|) <= h.first
  {
    var k := Kept(h, |lines|);
    if k <= h.first {
      assert (h.first - k) % TWO_TO_THE_64 == h.first - k;
      if k == 0 {
        assert lines[|lines|..] == [];
      }
    } else {
      assert (h.first - k) % TWO_TO_THE_64 == h.first - k + TWO_TO_THE_64;
    }
  }

  lemma {:induction false} PushAllSlices(log: seq<Row>, h: Hist, rows: seq<Row>)
    requires SliceOf(log, h) && h.max > 0 && |h.items| <= h.max
    requires h.total + |rows| <= |log| && log[h.total..h.total + |rows|] == rows
    ensures var r := PushAll(h, rows);
            SliceOf(log, r) && r.total == h.total + |rows| && r.max == h.max && |r.items| <= r.max && h.first <= r.first
    decreases |rows|
  {
    if rows != [] {
      var p := Push(h, rows[0]);
      assert rows[0] == log[h.total];
      assert log[h.first..h.total] + [log[h.total]] == log[h.first..h.total + 1];
      assert rows[1..] == log[p.total..p.total + |rows| - 1];
      PushAllSlices(log, p, rows[1..]);
    }
  }

  // ── The history screen itself ──────────────────────────────────────────────

  class HistoryScreen {
    var items: seq<Row>
    var firstSeq: nat
    var totalAdded: nat
    const max: nat

    function State(): Hist
      reads this
    {
      Hist(items, firstSeq, totalAdded, max)
    }

    constructor (max: nat)
      ensures State() == EmptyHist(max)
    {
      this.max := max;
      items, firstSeq, totalAdded := [], 0, 0;
    }

    method Append(row: Row) returns (evicted: bool)
      modifies this`items
      ensures items == Push(old(State()), row).items
      ensures evicted == (max > 0 && |old(items)| == max)
    {
      if max == 0 {
        return false;
      }
      evicted := false;
      if |items| == max {
        items := items[1..];
        evicted := true;
      }
      items := items + [row];
    }

    /** indexInternal with an eligible top line. */
    method ScrollOff(row: Row)
      modifies this
      ensures State() == Push(old(State()), row)
    {
      var evicted := Append(row);
      if evicted {
        firstSeq := firstSeq + 1;
      }
      totalAdded := totalAdded + 1;
    }

    method Handle(e: Event)
      modifies this
      ensures State() == ApplyEvent(old(State()), e)
    {
      match e
      case Screen(_, rows) =>
        for i := 0 to |rows|
          invariant PushAll(State(), rows[i..]) == PushAll(old(State()), rows)
        {
          ScrollOff(rows[i]);
          assert rows[i..][1..] == rows[i + 1..];
        }
      case Reset => ResetHistory();
      case _ =>
    }

    method ResetHistory()
      modifies this
      ensures State() == Cleared(old(State()))
      ensures items == [] && firstSeq == totalAdded == old(totalAdded)
    {
      items := [];
      firstSeq := totalAdded;
    }

    method SetTotalAdded(n: nat)
      modifies this
      ensures State() == WithTotal(old(State()), n)
      ensures items == old(items) && totalAdded == n && firstSeq == if items == [] then n else old(firstSeq)
    {
      totalAdded := n;
      if |items| == 0 {
        firstSeq := n;
      }
    }

    method SetFirstSeq(n: nat)
      modifies this`firstSeq
      ensures firstSeq == n
    {
      firstSeq := n;
    }

    method PrependHistory(lines: seq<Row>)
      requires firstSeq < TWO_TO_THE_64
      modifies this
      ensures State() == Prepend(old(State()), lines)
    {
      if |lines| == 0 {
        PrependNothing(State());
        return;
      }
      var room := max - |items|;
      if room < 0 {
        room := 0;
      }
      var kept := |lines|;
      if kept > room {
        kept := room;
      }
      items := lines[|lines| - kept..] + items;
      firstSeq := (firstSeq - kept) % TWO_TO_THE_64;
    }
  }
}
