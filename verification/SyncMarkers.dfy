/**
 Sync markers in byte streams: "ESC ]2459;nx;..." operating system commands
 ended by BEL or by ESC backslash. One parser strips requests from a chunk of
 input (internal/tui/sync.go); the other collects acks from a stream that is
 read in arbitrary pieces (internal/nxtest/ptyio.go).
 */
module SyncMarkers {

  const ESC := '\U{001b}'
  const BEL := '\U{0007}'

  const SYNC_PREFIX := [ESC] + "]2459;nx;sync;"
  const ACK_PREFIX := [ESC] + "]2459;nx;ack;"

  // ── Scanning ───────────────────────────────────────────────────────────────

  /** From its i-th byte on, prefix matches s at j. */
  predicate Matches(s: string, prefix: string, j: nat, i: nat)
    requires i <= |prefix| && j + |prefix| <= |s|
    decreases |prefix| - i
  {
    i == |prefix| || (s[j + i] == prefix[i] && Matches(s, prefix, j, i + 1))
  }

  predicate OccursAt(s: string, prefix: string, j: nat) {
    j + |prefix| <= |s| && Matches(s, prefix, j, 0)
  }

  /** Where prefix first occurs at or after from, or |s|. */
  function FindFrom(s: string, prefix: string, from: nat): (k: nat)
    requires from <= |s| && |prefix| > 0
    ensures from <= k <= |s| && (k < |s| ==> k + |prefix| <= |s|)
    decreases |s| - from
  {
    if from == |s| || OccursAt(s, prefix, from) then from else FindFrom(s, prefix, from + 1)
  }

  /** bytes.Index, with |s| for "not found". */
  function Find(s: string, prefix: string): (k: nat)
    requires |prefix| > 0
    ensures k <= |s| && (k < |s| ==> k + |prefix| <= |s|)
  {
    FindFrom(s, prefix, 0)
  }

  lemma {:induction false} FindsFirst(s: string, prefix: string, from: nat)
    requires from <= |s| && |prefix| > 0
    ensures var k := FindFrom(s, prefix, from);
            (k < |s| ==> OccursAt(s, prefix, k)) && forall j :: from <= j < k ==> !OccursAt(s, prefix, j)
    decreases |s| - from
  {
    if from < |s| && !OccursAt(s, prefix, from) {
      FindsFirst(s, prefix, from + 1);
    }
  }

  predicate Ends(s: string, e: nat)
    requires e < |s|
  {
    s[e] == BEL || (s[e] == ESC && e + 1 < |s| && s[e + 1] == '\\')
  }

  /** Where the payload at the start of s ends, or |s|. */
  function Terminator(s: string, from: nat): (e: nat)
    requires from <= |s|
    ensures from <= e <= |s|
    ensures e < |s| ==> Ends(s, e)
    decreases |s| - from
  {
    if from == |s| || Ends(s, from) then from else Terminator(s, from + 1)
  }

  function After(s: string, e: nat): (k: nat)
    requires e < |s| && Ends(s, e)
    ensures e < k <= |s|
  {
    if s[e] == BEL then e + 1 else e + 2
  }

  /** The first marker of s: absent, unfinished, or from start to payload to end to the byte after it. */
  datatype First = Absent | Unfinished(start: nat) | Complete(start: nat, payload: nat, end: nat, next: nat)

  function FirstMarker(s: string, prefix: string): (m: First)
    requires |prefix| > 0
    ensures m.Unfinished? ==> m.start < |s|
    ensures m.Complete? ==> m.start < m.payload <= m.end < m.next <= |s|
  {
    var f := Find(s, prefix);
    if f == |s| then Absent
    else
      var e := Terminator(s, f + |prefix|);
      if e == |s| then Unfinished(f) else Complete(f, f + |prefix|, e, After(s, e))
  }

  type Scan = string -> First

  function Scanner(prefix: string): Scan
    requires |prefix| > 0
  {
    (s: string) => FirstMarker(s, prefix)
  }

  predicate InRange(m: First, s: string) {
    && (m.Unfinished? ==> m.start < |s|)
    && (m.Complete? ==> m.start < m.payload <= m.end < m.next <= |s|)
  }

  ghost predicate Bounded(scan: Scan) {
    forall s :: InRange(scan(s), s)
  }

  /** The ids of all complete markers, in order. */
  function Ids(s: string, scan: Scan): seq<string>
    requires Bounded(scan)
    decreases |s|
  {
    match scan(s)
    case Complete(_, payload, end, next) => [s[payload..end]] + Ids(s[next..], scan)
    case _ => []
  }

  /** What must be kept of a stream read so far: an unfinished marker, or the last n bytes, too few to tell. */
  function Pending(s: string, scan: Scan, n: nat): string
    requires Bounded(scan)
    decreases |s|
  {
    match scan(s)
    case Absent => LastBytes(s, n)
    case Unfinished(start) => s[start..]
    case Complete(_, _, _, next) => Pending(s[next..], scan, n)
  }

  function LastBytes(s: string, n: nat): string { if |s| > n then s[|s| - n..] else s }

  /** What is left of a chunk without its complete markers. */
  function Remaining(s: string, scan: Scan): string
    requires Bounded(scan)
    decreases |s|
  {
    match scan(s)
    case Complete(start, _, _, next) => s[..start] + Remaining(s[next..], scan)
    case _ => s
  }

  // ── Cutting a stream anywhere ──────────────────────────────────────────────

  lemma {:induction false} MatchesElsewhere(s: string, j: nat, t: string, k: nat, prefix: string, i: nat)
    requires i <= |prefix| && j + |prefix| <= |s| && k + |prefix| <= |t|
    requires forall c :: j + i <= c < j + |prefix| ==> s[c] == t[c - j + k]
    ensures Matches(s, prefix, j, i) == Matches(t, prefix, k, i)
    decreases |prefix| - i
  {
    if i < |prefix| {
      assert s[j + i] == t[k + i];
      MatchesElsewhere(s, j, t, k, prefix, i + 1);
    }
  }

  lemma {:induction false} MatchedByte(s: string, prefix: string, j: nat, i: nat, n: nat)
    requires i <= n < |prefix| && j + |prefix| <= |s| && Matches(s, prefix, j, i)
    ensures s[j + n] == prefix[n]
    decreases |prefix| - i
  {
    if i < n {
      MatchedByte(s, prefix, j, i + 1, n);
    }
  }

  lemma OccursSkip(s: string, prefix: string, k: nat, j: nat)
    requires k <= |s|
    ensures OccursAt(s[k..], prefix, j) <==> OccursAt(s, prefix, k + j)
  {
    if k + j + |prefix| <= |s| {
      MatchesElsewhere(s[k..], j, s, k + j, prefix, 0);
    }
  }

  lemma OccursAppend(a: string, b: string, prefix: string, j: nat)
    requires j + |prefix| <= |a|
    ensures OccursAt(a + b, prefix, j) <==> OccursAt(a, prefix, j)
  {
    MatchesElsewhere(a + b, j, a, j, prefix, 0);
  }

  /** Dropping bytes in which no marker starts moves the first marker by as much. */
  lemma FindAfterSkip(s: string, prefix: string, k: nat)
    requires |prefix| > 0 && k <= Find(s, prefix)
    ensures Find(s[k..], prefix) == Find(s, prefix) - k
  {
    var f, g := Find(s, prefix), Find(s[k..], prefix);
    FindsFirst(s, prefix, 0);
    FindsFirst(s[k..], prefix, 0);
    OccursSkip(s, prefix, k, f - k);
    OccursSkip(s, prefix, k, g);
  }

  lemma {:induction false} TerminatorAfterSkip(s: string, k: nat, from: nat)
    requires k <= from <= |s|
    ensures Terminator(s[k..], from - k) == Terminator(s, from) - k
    decreases |s| - from
  {
    if from < |s| && !Ends(s, from) {
      TerminatorAfterSkip(s, k, from + 1);
    }
  }

  function Shifted(m: First, k: nat): First
    requires !m.Absent? ==> k <= m.start
    requires m.Complete? ==> m.start <= m.payload && m.start <= m.end && m.start <= m.next
  {
    match m
    case Absent => Absent
    case Unfinished(start) => Unfinished(start - k)
    case Complete(start, payload, end, next) => Complete(start - k, payload - k, end - k, next - k)
  }

  lemma FirstAfterSkip(s: string, prefix: string, k: nat)
    requires |prefix| > 0 && k <= Find(s, prefix)
    ensures FirstMarker(s[k..], prefix) == Shifted(FirstMarker(s, prefix), k)
  {
    FindAfterSkip(s, prefix, k);
    var f := Find(s, prefix);
    if f < |s| {
      TerminatorAfterSkip(s, k, f + |prefix|);
    }
  }

  lemma FindInPrefix(a: string, b: string, prefix: string)
    requires |prefix| > 0 && Find(a, prefix) < |a|
    ensures Find(a + b, prefix) == Find(a, prefix)
  {
    var f, g := Find(a, prefix), Find(a + b, prefix);
    FindsFirst(a, prefix, 0);
    FindsFirst(a + b, prefix, 0);
    OccursAppend(a, b, prefix, f);
    if g < f {
      OccursAppend(a, b, prefix, g);
    }
  }

  /** Bytes that hold no complete prefix can only start one in their last few bytes. */
  lemma FindStraddles(a: string, b: string, prefix: string)
    requires |prefix| > 0 && Find(a, prefix) == |a| && |a| > |prefix| - 1
    ensures Find(a + b, prefix) >= |a| - (|prefix| - 1)
  {
    var g := Find(a + b, prefix);
    FindsFirst(a, prefix, 0);
    FindsFirst(a + b, prefix, 0);
    if g < |a| - (|prefix| - 1) {
      OccursAppend(a, b, prefix, g);
    }
  }

  lemma {:induction false} TerminatorInPrefix(a: string, b: string, from: nat)
    requires from <= |a| && Terminator(a, from) < |a|
    ensures Terminator(a + b, from) == Terminator(a, from)
    decreases |a| - from
  {
    if !Ends(a, from) {
      if from + 1 < |a| {
        assert !Ends(a + b, from);
      }
      TerminatorInPrefix(a, b, from + 1);
    }
  }

  lemma FirstInPrefix(a: string, b: string, prefix: string)
    requires |prefix| > 0 && FirstMarker(a, prefix).Complete?
    ensures FirstMarker(a + b, prefix) == FirstMarker(a, prefix)
  {
    FindInPrefix(a, b, prefix);
    TerminatorInPrefix(a, b, Find(a, prefix) + |prefix|);
  }

  predicate Skippable(m: First, len: nat, k: nat, n: nat) {
    if m.Absent? then k == 0 || k + n <= len else k <= m.start
  }

  /**
   A scanner looks only at what follows the bytes it can skip, and once it has seen a whole marker, at
   nothing after it.
   */
  ghost predicate Local(scan: Scan, n: nat) {
    && Bounded(scan)
    && (forall s: string, k: nat :: k <= |s| && Skippable(scan(s), |s|, k, n) ==> scan(s[k..]) == Shifted(scan(s), k))
    && (forall a: string, b: string :: scan(a).Complete? ==> scan(a + b) == scan(a))
    && (forall a: string, b: string :: scan(a).Unfinished? ==>
      !scan(a + b).Absent? && scan(a + b).start == scan(a).start)
    && (forall a: string, b: string :: scan(a).Absent? && |a| > n ==> Skippable(scan(a + b), |a + b|, |a| - n, n))
  }

  lemma Slices(s: string, k: nat, i: nat, j: nat)
    requires k <= i <= j <= |s|
    ensures s[k..][i - k..j - k] == s[i..j]
    ensures s[k..][j - k..] == s[j..]
  {
  }

  /** Streams whose first markers agree, and continue alike, parse alike. */
  lemma SameMarkers(s: string, t: string, scan: Scan, n: nat, m: First, w: First)
    requires Bounded(scan) && scan(s) == m && scan(t) == w && m.Complete? && w.Complete?
    requires s[m.payload..m.end] == t[w.payload..w.end] && s[m.next..] == t[w.next..]
    ensures Ids(s, scan) == Ids(t, scan) && Pending(s, scan, n) == Pending(t, scan, n)
  {
  }

  lemma FirstId(s: string, scan: Scan, n: nat, m: First)
    requires Bounded(scan) && scan(s) == m && m.Complete?
    ensures Ids(s, scan) == [s[m.payload..m.end]] + Ids(s[m.next..], scan)
    ensures Pending(s, scan, n) == Pending(s[m.next..], scan, n)
    ensures Remaining(s, scan) == s[..m.start] + Remaining(s[m.next..], scan)
  {
  }

  lemma SkipToMarker(s: string, t: string, scan: Scan, n: nat, k: nat)
    requires Bounded(scan) && scan(s).Complete? && k <= scan(s).start && t == s[k..] && scan(t) == Shifted(scan(s), k)
    ensures Ids(t, scan) == Ids(s, scan) && Pending(t, scan, n) == Pending(s, scan, n)
  {
    var m := scan(s);
    Slices(s, k, m.payload, m.end);
    Slices(s, k, m.next, m.next);
    SameMarkers(s, t, scan, n, m, Shifted(m, k));
  }

  /** Bytes before the first marker do not matter, as long as enough of the stream is left to see a prefix start. */
  lemma SkipClean(s: string, scan: Scan, n: nat, k: nat)
    requires Local(scan, n) && k <= |s| && Skippable(scan(s), |s|, k, n)
    ensures Ids(s[k..], scan) == Ids(s, scan)
    ensures Pending(s[k..], scan, n) == Pending(s, scan, n)
  {
    var m, t := scan(s), s[k..];
    assert scan(t) == Shifted(m, k);
    match m
    case Absent =>
      if k == 0 {
        assert s[0..] == s;
      } else if |s| > n {
        Slices(s, k, |s| - n, |s| - n);
      }
    case Unfinished(start) => Slices(s, k, start, start);
    case Complete(_, _, _, _) => SkipToMarker(s, t, scan, n, k);
  }

  lemma CutClean(a: string, b: string, scan: Scan, n: nat, k: nat)
    requires Local(scan, n) && k <= |a| && Skippable(scan(a + b), |a + b|, k, n)
    ensures Ids(a + b, scan) == Ids(a[k..] + b, scan) && Pending(a + b, scan, n) == Pending(a[k..] + b, scan, n)
  {
    SkipClean(a + b, scan, n, k);
    assert (a + b)[k..] == a[k..] + b;
  }

  /**
   Reading a stream in two pieces, keeping only what is pending between them,
   yields the same ids in the same order and leaves the same bytes pending,
   wherever the cut falls.
   */
  lemma {:induction false} CutAnywhere(a: string, b: string, scan: Scan, n: nat)
    requires Local(scan, n)
    ensures Ids(a + b, scan) == Ids(a, scan) + Ids(Pending(a, scan, n) + b, scan)
    ensures Pending(a + b, scan, n) == Pending(Pending(a, scan, n) + b, scan, n)
    decreases |a|, 1
  {
    if scan(a).Complete? {
      CutAfterMarker(a, b, scan, n);
    } else {
      CutBeforeMarker(a, b, scan, n);
    }
  }

  /** The case of no whole marker before the cut: nothing is read, and only what cannot matter is let go. */
  lemma CutBeforeMarker(a: string, b: string, scan: Scan, n: nat)
    requires Local(scan, n) && !scan(a).Complete?
    ensures Ids(a + b, scan) == Ids(a, scan) + Ids(Pending(a, scan, n) + b, scan)
    ensures Pending(a + b, scan, n) == Pending(Pending(a, scan, n) + b, scan, n)
  {
    var k := if scan(a).Unfinished? then scan(a).start else if |a| > n then |a| - n else 0;
    ByFirst(a, scan, n, scan(a));
    assert Ids(a, scan) == [] && Pending(a, scan, n) == a[k..];
    CutClean(a, b, scan, n, k);
  }

  lemma CutComplete(a: string, b: string, scan: Scan, n: nat)
    requires Local(scan, n) && scan(a).Complete?
    ensures var m := scan(a);
            && Ids(a + b, scan) == [a[m.payload..m.end]] + Ids(a[m.next..] + b, scan)
            && Pending(a + b, scan, n) == Pending(a[m.next..] + b, scan, n)
  {
    var m := scan(a);
    assert scan(a + b) == m;
    FirstId(a + b, scan, n, m);
    assert (a + b)[m.payload..m.end] == a[m.payload..m.end] && (a + b)[m.next..] == a[m.next..] + b;
  }

  /** The case of a whole marker before the cut: what follows it is cut in turn. */
  lemma {:induction false} CutAfterMarker(a: string, b: string, scan: Scan, n: nat)
    requires Local(scan, n) && scan(a).Complete?
    ensures Ids(a + b, scan) == Ids(a, scan) + Ids(Pending(a, scan, n) + b, scan)
    ensures Pending(a + b, scan, n) == Pending(Pending(a, scan, n) + b, scan, n)
    decreases |a|, 0
  {
    var m := scan(a);
    CutAnywhere(a[m.next..], b, scan, n);
    FirstId(a, scan, n, m);
    CutComplete(a, b, scan, n);
    var rest := a[m.next..];
    Glue([a[m.payload..m.end]], Ids(rest, scan), Ids(Pending(rest, scan, n) + b, scan), Ids(a, scan), Ids(a + b, scan));
  }

  lemma Glue(x: seq<string>, y: seq<string>, z: seq<string>, xy: seq<string>, xyz: seq<string>)
    requires xy == x + y && xyz == x + (y + z)
    ensures xyz == xy + z
  {
  }

  lemma SkipScanned(s: string, prefix: string, k: nat)
    requires |prefix| > 0 && k <= |s| && Skippable(FirstMarker(s, prefix), |s|, k, |prefix| - 1)
    ensures FirstMarker(s[k..], prefix) == Shifted(FirstMarker(s, prefix), k)
  {
    FirstAfterSkip(s, prefix, k);
  }

  lemma ScannerIsLocal(prefix: string)
    requires |prefix| > 0
    ensures Local(Scanner(prefix), |prefix| - 1)
  {
    var scan, n := Scanner(prefix), |prefix| - 1;
    forall s: string, k: nat | k <= |s| && Skippable(scan(s), |s|, k, n) ensures scan(s[k..]) == Shifted(scan(s), k) {
      SkipScanned(s, prefix, k);
    }
    forall a: string, b: string | scan(a).Complete? ensures scan(a + b) == scan(a) {
      FirstInPrefix(a, b, prefix);
    }
    forall a: string, b: string | scan(a).Unfinished?
      ensures !scan(a + b).Absent? && scan(a + b).start == scan(a).start
    {
      FindInPrefix(a, b, prefix);
    }
    forall a: string, b: string | scan(a).Absent? && |a| > n ensures Skippable(scan(a + b), |a + b|, |a| - n, n) {
      FindStraddles(a, b, prefix);
    }
  }

  // ── Printing and parsing ───────────────────────────────────────────────────

  /** A marker ends with BEL or with ESC backslash. */
  function Ending(st: bool): string { if st then [ESC, '\\'] else [BEL] }

  function Marker(prefix: string, id: string, st: bool): string { prefix + id + Ending(st) }

  /** An id that can be printed: nothing in it ends a marker. */
  predicate Printable(id: string) {
    forall i :: 0 <= i < |id| ==> id[i] != BEL && !(id[i] == ESC && i + 1 < |id| && id[i + 1] == '\\')
  }

  /** A prefix that cannot overlap itself: its first character does not occur again. */
  predicate Unbordered(prefix: string) {
    |prefix| > 0 && prefix[0] == ESC && forall i :: 0 < i < |prefix| ==> prefix[i] != ESC
  }

  datatype Piece = Piece(filler: string, id: string, st: bool)

  function Printed(prefix: string, pieces: seq<Piece>, tail: string): string {
    if pieces == [] then tail
    else pieces[0].filler + Marker(prefix, pieces[0].id, pieces[0].st) + Printed(prefix, pieces[1..], tail)
  }

  function Fillers(pieces: seq<Piece>, tail: string): string {
    if pieces == [] then tail else pieces[0].filler + Fillers(pieces[1..], tail)
  }

  lemma {:induction false} MatchesItself(filler: string, prefix: string, rest: string, i: nat)
    requires i <= |prefix|
    ensures Matches(filler + (prefix + rest), prefix, |filler|, i)
    decreases |prefix| - i
  {
    if i < |prefix| {
      MatchesItself(filler, prefix, rest, i + 1);
    }
  }

  lemma FillerThenMarker(filler: string, prefix: string, rest: string)
    requires Unbordered(prefix) && Find(filler, prefix) == |filler|
    ensures Find(filler + (prefix + rest), prefix) == |filler|
  {
    var s := filler + (prefix + rest);
    var g := Find(s, prefix);
    FindsFirst(filler, prefix, 0);
    FindsFirst(s, prefix, 0);
    MatchesItself(filler, prefix, rest, 0);
    assert OccursAt(s, prefix, |filler|) && s[|filler|] == ESC;
    if g < |filler| {
      if g + |prefix| <= |filler| {
        OccursAppend(filler, prefix + rest, prefix, g);
      } else {
        MatchedByte(s, prefix, g, 0, |filler| - g);
      }
    }
  }

  lemma {:induction false} PayloadEnds(s: string, from: nat, id: string, st: bool)
    requires Printable(id) && from + |id| + |Ending(st)| <= |s|
    requires s[from..from + |id|] == id && s[from + |id|..from + |id| + |Ending(st)|] == Ending(st)
    ensures Terminator(s, from) == from + |id| && After(s, from + |id|) == from + |id| + |Ending(st)|
    decreases |id|
  {
    assert s[from + |id|] == Ending(st)[0];
    if st {
      assert s[from + |id| + 1] == Ending(st)[1];
    }
    if id != "" {
      assert s[from] == id[0];
      if |id| > 1 {
        assert s[from + 1] == id[1];
      }
      assert s[from + 1..from + |id|] == id[1..];
      PayloadEnds(s, from + 1, id[1..], st);
    }
  }

  lemma PrintedSlices(filler: string, prefix: string, id: string, ending: string, rest: string, s: string)
    requires s == filler + (prefix + id + ending) + rest
    ensures var payload := |filler| + |prefix|;
            && s == filler + (prefix + (id + ending + rest)) && payload + |id| + |ending| <= |s|
            && s[..|filler|] == filler && s[payload..payload + |id|] == id
            && s[payload + |id|..payload + |id| + |ending|] == ending && s[payload + |id| + |ending|..] == rest
  {
  }

  /** Where the first printed marker lies. */
  lemma FirstPrinted(prefix: string, filler: string, id: string, st: bool, rest: string, s: string)
    requires Unbordered(prefix) && Find(filler, prefix) == |filler| && Printable(id)
    requires s == filler + Marker(prefix, id, st) + rest
    ensures var payload := |filler| + |prefix|;
            FirstMarker(s, prefix) == Complete(|filler|, payload, payload + |id|, payload + |id| + |Ending(st)|)
  {
    PrintedSlices(filler, prefix, id, Ending(st), rest, s);
    FillerThenMarker(filler, prefix, id + Ending(st) + rest);
    PayloadEnds(s, |filler| + |prefix|, id, st);
  }

  /** Filler free of the prefix, interleaved with any number of printed markers: parsing gives back both. */
  lemma {:induction false} PrintedParses(prefix: string, pieces: seq<Piece>, tail: string)
    requires Unbordered(prefix) && Find(tail, prefix) == |tail|
    requires forall p :: p in pieces ==> Find(p.filler, prefix) == |p.filler| && Printable(p.id)
    ensures var s := Printed(prefix, pieces, tail);
            && Ids(s, Scanner(prefix)) == IdsOf(pieces)
            && Remaining(s, Scanner(prefix)) == Fillers(pieces, tail)
    decreases |pieces|
  {
    if pieces != [] {
      var rest := Printed(prefix, pieces[1..], tail);
      assert pieces[0] in pieces;
      PrintedParses(prefix, pieces[1..], tail);
      ParsesFirst(prefix, pieces[0].filler, pieces[0].id, pieces[0].st, rest);
    }
  }

  /** What parsing s says, given its first marker. */
  lemma ByFirst(s: string, scan: Scan, n: nat, m: First)
    requires Bounded(scan) && m == scan(s)
    ensures m.Complete? ==>
      && Ids(s, scan) == [s[m.payload..m.end]] + Ids(s[m.next..], scan)
      && Remaining(s, scan) == s[..m.start] + Remaining(s[m.next..], scan)
      && Pending(s, scan, n) == Pending(s[m.next..], scan, n)
    ensures !m.Complete? ==> Ids(s, scan) == [] && Remaining(s, scan) == s
    ensures m.Unfinished? ==> Pending(s, scan, n) == s[m.start..]
    ensures m.Absent? ==> Pending(s, scan, n) == LastBytes(s, n)
  {
    if m.Complete? {
      FirstId(s, scan, n, m);
    }
  }

  lemma ParsesAt(s: string, scan: Scan, m: First, filler: string, id: string, rest: string)
    requires Bounded(scan) && m == scan(s) && m.Complete?
    requires s[..m.start] == filler && s[m.payload..m.end] == id && s[m.next..] == rest
    ensures Ids(s, scan) == [id] + Ids(rest, scan) && Remaining(s, scan) == filler + Remaining(rest, scan)
  {
    FirstId(s, scan, 0, m);
  }

  lemma ParsesFirst(prefix: string, filler: string, id: string, st: bool, rest: string)
    requires Unbordered(prefix) && Find(filler, prefix) == |filler| && Printable(id)
    ensures var s := filler + Marker(prefix, id, st) + rest;
            && Ids(s, Scanner(prefix)) == [id] + Ids(rest, Scanner(prefix))
            && Remaining(s, Scanner(prefix)) == filler + Remaining(rest, Scanner(prefix))
  {
    var s := filler + Marker(prefix, id, st) + rest;
    FirstPrinted(prefix, filler, id, st, rest, s);
    PrintedSlices(filler, prefix, id, Ending(st), rest, s);
    ParsesAt(s, Scanner(prefix), FirstMarker(s, prefix), filler, id, rest);
  }

  function IdsOf(pieces: seq<Piece>): seq<string> {
    if pieces == [] then [] else [pieces[0].id] + IdsOf(pieces[1..])
  }

  lemma PrefixesUnbordered()
    ensures Unbordered(SYNC_PREFIX) && Unbordered(ACK_PREFIX)
  {
  }

  // ── The parsers ────────────────────────────────────────────────────────────

  method ScanTerminator(chunk: string, start: nat) returns (end: nat)
    requires start <= |chunk|
    ensures end == Terminator(chunk, start)
  {
    end := start;
    while end < |chunk|
      invariant start <= end <= |chunk| && Terminator(chunk, end) == Terminator(chunk, start)
    {
      if chunk[end] == BEL {
        break;
      }
      if chunk[end] == ESC && end + 1 < |chunk| && chunk[end + 1] == '\\' {
        break;
      }
      end := end + 1;
    }
  }

  method NextMarker(rest: string, prefix: string) returns (m: First)
    requires |prefix| > 0
    ensures m == FirstMarker(rest, prefix)
  {
    var pi := Find(rest, prefix);
    if pi == |rest| {
      return Absent;
    }
    var end := ScanTerminator(rest, pi + |prefix|);
    if end == |rest| {
      return Unfinished(pi);
    }
    m := Complete(pi, pi + |prefix|, end, if rest[end] == BEL then end + 1 else end + 2);
  }

  /** Handling one more marker, with ids and text gathered so far. */
  lemma StripStep(chunk: string, rest: string, scan: Scan, m: First, text: string, ids: seq<string>)
    requires Bounded(scan) && m == scan(rest)
    requires text + Remaining(rest, scan) == Remaining(chunk, scan) && ids + Ids(rest, scan) == Ids(chunk, scan)
    ensures m.Complete? ==>
      && text + rest[..m.start] + Remaining(rest[m.next..], scan) == Remaining(chunk, scan)
      && ids + [rest[m.payload..m.end]] + Ids(rest[m.next..], scan) == Ids(chunk, scan)
    ensures !m.Complete? ==> text + rest == Remaining(chunk, scan) && ids == Ids(chunk, scan)
  {
    ByFirst(rest, scan, 0, m);
    if m.Complete? {
      Regroup(text, rest[..m.start], Remaining(rest[m.next..], scan));
      Regroup(ids, [rest[m.payload..m.end]], Ids(rest[m.next..], scan));
    }
  }

  lemma Regroup<T>(a: seq<T>, b: seq<T>, c: seq<T>)
    ensures a + b + c == a + (b + c)
  {
  }

  method Strip(chunk: string, prefix: string) returns (remaining: string, ids: seq<string>)
    requires |prefix| > 0
    ensures remaining == Remaining(chunk, Scanner(prefix)) && ids == Ids(chunk, Scanner(prefix))
  {
    remaining, ids := "", [];
    var rest := chunk;
    while |rest| > 0
      invariant remaining + Remaining(rest, Scanner(prefix)) == Remaining(chunk, Scanner(prefix))
      invariant ids + Ids(rest, Scanner(prefix)) == Ids(chunk, Scanner(prefix))
      decreases |rest|
    {
      var m := NextMarker(rest, prefix);
      StripStep(chunk, rest, Scanner(prefix), m, remaining, ids);
      if !m.Complete? {
        remaining := remaining + rest;
        return;
      }
      ids := ids + [rest[m.payload..m.end]];
      remaining := remaining + rest[..m.start];
      rest := rest[m.next..];
    }
    NothingLeft(prefix);
  }

  /** Strips the complete requests from a chunk of input. */
  method ExtractSyncMarkers(chunk: string) returns (remaining: string, ids: seq<string>)
    ensures remaining == Remaining(chunk, Scanner(SYNC_PREFIX)) && ids == Ids(chunk, Scanner(SYNC_PREFIX))
  {
    remaining, ids := Strip(chunk, SYNC_PREFIX);
  }

  /** Stripping a chunk of printed requests and filler gives back exactly the filler and the ids. */
  lemma StripsExactlyTheMarkers(pieces: seq<Piece>, tail: string)
    requires Find(tail, SYNC_PREFIX) == |tail|
    requires forall p :: p in pieces ==> Find(p.filler, SYNC_PREFIX) == |p.filler| && Printable(p.id)
    ensures var s := Printed(SYNC_PREFIX, pieces, tail);
            && Ids(s, Scanner(SYNC_PREFIX)) == IdsOf(pieces)
            && Remaining(s, Scanner(SYNC_PREFIX)) == Fillers(pieces, tail)
  {
    PrefixesUnbordered();
    PrintedParses(SYNC_PREFIX, pieces, tail);
  }

  // ── Collecting acks ────────────────────────────────────────────────────────

  const ACK_KEEP: nat := |ACK_PREFIX| - 1

  function AcksIn(stream: string): seq<string> { Ids(stream, Scanner(ACK_PREFIX)) }

  /** seen: acks nobody was waiting for yet; waiting: ids being waited for; released: waits ended by an ack. */
  datatype Acks = Acks(seen: set<string>, waiting: set<string>, released: seq<string>)

  function Deliver(a: Acks, id: string): Acks {
    if id in a.waiting then Acks(a.seen, a.waiting - {id}, a.released + [id]) else a.(seen := a.seen + {id})
  }

  function DeliverAll(a: Acks, ids: seq<string>): Acks {
    if ids == [] then a else Deliver(DeliverAll(a, ids[..|ids| - 1]), ids[|ids| - 1])
  }

  lemma DeliverOne(a: Acks, ids: seq<string>, id: string)
    ensures DeliverAll(a, ids + [id]) == Deliver(DeliverAll(a, ids), id)
  {
    assert (ids + [id])[..|ids|] == ids;
  }

  /** The complete acks of what has been read but not yet handled, and what to keep for the next read. */
  method ScanAcks(combined: string, prefix: string) returns (ids: seq<string>, pending: string)
    requires |prefix| > 0
    ensures ids == Ids(combined, Scanner(prefix))
    ensures pending == Pending(combined, Scanner(prefix), |prefix| - 1)
  {
    var rest := combined;
    ids := [];
    while |rest| > 0
      invariant ids + Ids(rest, Scanner(prefix)) == Ids(combined, Scanner(prefix))
      invariant Pending(rest, Scanner(prefix), |prefix| - 1) == Pending(combined, Scanner(prefix), |prefix| - 1)
      decreases |rest|
    {
      var m := NextMarker(rest, prefix);
      ScanStep(combined, rest, Scanner(prefix), |prefix| - 1, m, ids);
      match m {
        case Absent => return ids, LastBytes(rest, |prefix| - 1);
        case Unfinished(start) => return ids, rest[start..];
        case Complete(_, payload, end, next) =>
          ids := ids + [rest[payload..end]];
          rest := rest[next..];
      }
    }
    pending := "";
    NothingLeft(prefix);
  }

  lemma ScanStep(combined: string, rest: string, scan: Scan, n: nat, m: First, ids: seq<string>)
    requires Bounded(scan) && m == scan(rest) && ids + Ids(rest, scan) == Ids(combined, scan)
    ensures m.Complete? ==>
      && ids + [rest[m.payload..m.end]] + Ids(rest[m.next..], scan) == Ids(combined, scan)
      && Pending(rest, scan, n) == Pending(rest[m.next..], scan, n)
    ensures !m.Complete? ==> ids == Ids(combined, scan)
    ensures m.Unfinished? ==> Pending(rest, scan, n) == rest[m.start..]
    ensures m.Absent? ==> Pending(rest, scan, n) == LastBytes(rest, n)
  {
    ByFirst(rest, scan, n, m);
    if m.Complete? {
      Regroup(ids, [rest[m.payload..m.end]], Ids(rest[m.next..], scan));
    }
  }

  class PtyIO {
    var ackPending: string
    var ackSeen: set<string>
    var ackWaiters: set<string>

    // Everything read so far, and the waits ended by an ack.
    ghost var stream: string
    ghost var released: seq<string>

    ghost function State(): Acks
      reads this
    {
      Acks(ackSeen, ackWaiters, released)
    }

    /** What is kept between reads is exactly what the whole stream leaves pending. */
    ghost predicate Valid()
      reads this
    {
      ackPending == Pending(stream, Scanner(ACK_PREFIX), ACK_KEEP)
    }

    constructor ()
      ensures Valid() && stream == "" && State() == Acks({}, {}, [])
    {
      ackPending, ackSeen, ackWaiters, stream, released := "", {}, {}, "", [];
      new;
      NothingLeft(ACK_PREFIX);
    }

    method Acknowledge(id: string)
      modifies this`ackSeen, this`ackWaiters, this`released
      ensures State() == Deliver(old(State()), id)
      ensures ackWaiters == old(ackWaiters) - {id}
      ensures ackSeen == old(ackSeen) + if id in old(ackWaiters) then {} else {id}
      ensures released == old(released) + if id in old(ackWaiters) then [id] else []
    {
      if id in ackWaiters {
        ackWaiters := ackWaiters - {id};
        released := released + [id];
      } else {
        ackSeen := ackSeen + {id};
      }
    }

    /**
     One read, of any size. Whatever the cuts between reads, the ids acked so
     far are exactly the ids of the uncut stream, each delivered once, in order.
     */
    method ExtractSyncAcks(chunk: string) returns (ghost acked: seq<string>)
      requires Valid()
      modifies this
      ensures Valid() && stream == old(stream) + chunk
      ensures AcksIn(stream) == old(AcksIn(stream)) + acked
      ensures State() == DeliverAll(old(State()), acked)
    {
      ghost var read := stream;
      ScannerIsLocal(ACK_PREFIX);
      CutAnywhere(read, chunk, Scanner(ACK_PREFIX), ACK_KEEP);
      stream := stream + chunk;
      var ids;
      ids, ackPending := ScanAcks(ackPending + chunk, ACK_PREFIX);
      AcknowledgeAll(ids);
      acked := ids;
    }

    method AcknowledgeAll(ids: seq<string>)
      modifies this`ackSeen, this`ackWaiters, this`released
      ensures State() == DeliverAll(old(State()), ids)
    {
      for i := 0 to |ids|
        invariant State() == DeliverAll(old(State()), ids[..i])
      {
        DeliverOne(old(State()), ids[..i], ids[i]);
        assert ids[..i + 1] == ids[..i] + [ids[i]];
        Acknowledge(ids[i]);
      }
      assert ids[..|ids|] == ids;
    }

    /** The start of WaitSync: an ack that came first ends the wait at once. */
    method BeginWait(id: string) returns (done: bool)
      modifies this`ackSeen, this`ackWaiters
      ensures done == (id in old(ackSeen)) && State() == Waited(old(State()), id)
      ensures ackSeen == old(ackSeen) - {id} && ackWaiters == old(ackWaiters) + if done then {} else {id}
    {
      if id in ackSeen {
        ackSeen := ackSeen - {id};
        return true;
      }
      ackWaiters := ackWaiters + {id};
      return false;
    }
  }

  function Waited(a: Acks, id: string): Acks {
    if id in a.seen then a.(seen := a.seen - {id}) else a.(waiting := a.waiting + {id})
  }

  /** Whether an ack or the wait for it comes first, the wait ends and nothing else is left changed. */
  lemma WaitMeetsAck(a: Acks, id: string)
    requires id !in a.seen && id !in a.waiting
    ensures id in Deliver(a, id).seen && Waited(Deliver(a, id), id) == a
    ensures Deliver(Waited(a, id), id) == a.(released := a.released + [id])
  {
    assert a.seen + {id} - {id} == a.seen;
    assert a.waiting + {id} - {id} == a.waiting;
  }

  /** What is kept between reads is the end of the stream, and short unless it is an unfinished marker. */
  lemma {:induction false} PendingIsTheEnd(s: string, prefix: string)
    requires |prefix| > 0
    ensures var p := Pending(s, Scanner(prefix), |prefix| - 1);
            && |p| <= |s| && p == s[|s| - |p|..]
            && (FirstMarker(p, prefix).Unfinished? || |p| < |prefix|)
    decreases |s|
  {
    var scan, n, m := Scanner(prefix), |prefix| - 1, FirstMarker(s, prefix);
    ByFirst(s, scan, n, m);
    match m
    case Absent =>
    case Unfinished(start) => SkipScanned(s, prefix, start);
    case Complete(_, _, _, next) => PendingIsTheEnd(s[next..], prefix);
  }

  lemma NothingLeft(prefix: string)
    requires |prefix| > 0
    ensures Pending("", Scanner(prefix), |prefix| - 1) == "" && Ids("", Scanner(prefix)) == []
    ensures Remaining("", Scanner(prefix)) == ""
  {
  }

  /** The ack the client prints at the end of a frame. */
  function FormatSyncAck(id: string): string { Marker(ACK_PREFIX, id, false) }

  lemma AckIsRead(id: string)
    requires Printable(id)
    ensures AcksIn(FormatSyncAck(id)) == [id]
  {
    var pieces := [Piece("", id, false)];
    assert pieces[1..] == [] && IdsOf(pieces) == [id] + [];
    assert "" + FormatSyncAck(id) + "" == FormatSyncAck(id);
    assert Printed(ACK_PREFIX, pieces, "") == FormatSyncAck(id);
    AcksArrive(pieces, "");
  }

  /** Acks printed one after another, with other output around them, all arrive. */
  lemma AcksArrive(pieces: seq<Piece>, tail: string)
    requires Find(tail, ACK_PREFIX) == |tail|
    requires forall p :: p in pieces ==> Find(p.filler, ACK_PREFIX) == |p.filler| && Printable(p.id)
    ensures AcksIn(Printed(ACK_PREFIX, pieces, tail)) == IdsOf(pieces)
  {
    PrefixesUnbordered();
    PrintedParses(ACK_PREFIX, pieces, tail);
  }
}
