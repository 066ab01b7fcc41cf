/**
 Carrying protocol bytes over a channel that only passes printable lines:
 base64 (section 4 of RFC 4648) in lines of at most 4096 characters, each
 message ended by a line holding a dot. The client's side is
 internal/transport/ssh_exec_flags_windows.go, the remote proxy's
 cmd/nxtermctl/proxy.go. Bytes are characters below 256.
 */
module Base64 {
  import opened Options
  import opened Text

  const CR := '\r'
  const LF := '\n'
  const CHUNK: nat := 4096

  predicate IsByte(c: char) { c as int < 256 }

  predicate AllBytes(s: string) { forall i :: 0 <= i < |s| ==> IsByte(s[i]) }

  // ── The code ───────────────────────────────────────────────────────────────

  function Symbol(n: nat): (c: char)
    requires n < 64
  {
    if n < 26 then 'A' + n as char
    else if n < 52 then 'a' + (n - 26) as char
    else if n < 62 then '0' + (n - 52) as char
    else if n == 62 then '+' else '/'
  }

  /** The value of a symbol, or 64. */
  function ValueOf(c: char): (n: nat)
    ensures n <= 64
  {
    if 'A' <= c <= 'Z' then (c - 'A') as nat
    else if 'a' <= c <= 'z' then (c - 'a') as nat + 26
    else if '0' <= c <= '9' then (c - '0') as nat + 52
    else if c == '+' then 62 else if c == '/' then 63 else 64
  }

  lemma SymbolValue(n: nat)
    requires n < 64
    ensures ValueOf(Symbol(n)) == n && Symbol(n) != '=' && IsSymbol(Symbol(n))
  {
  }

  predicate IsSymbol(c: char) { ValueOf(c) < 64 || c == '=' }

  // Three octets as four sextets, and back.

  function S1(x: char): (n: nat)
    requires IsByte(x)
    ensures n < 64
  { x as nat / 4 }

  function S2(x: char, y: char): (n: nat)
    requires IsByte(x) && IsByte(y)
    ensures n < 64
  { x as nat % 4 * 16 + y as nat / 16 }

  function S3(y: char, z: char): (n: nat)
    requires IsByte(y) && IsByte(z)
    ensures n < 64
  { y as nat % 16 * 4 + z as nat / 64 }

  function S4(z: char): (n: nat)
    requires IsByte(z)
    ensures n < 64
  { z as nat % 64 }

  function O1(p: nat, q: nat): char
    requires p < 64 && q < 64
  { (p * 4 + q / 16) as char }

  function O2(q: nat, r: nat): char
    requires q < 64 && r < 64
  { (q % 16 * 16 + r / 4) as char }

  function O3(r: nat, s: nat): char
    requires r < 64 && s < 64
  { (r % 4 * 64 + s) as char }

  lemma Regroups(x: char, y: char, z: char)
    requires IsByte(x) && IsByte(y) && IsByte(z)
    ensures O1(S1(x), S2(x, y)) == x && O2(S2(x, y), S3(y, z)) == y && O3(S3(y, z), S4(z)) == z
  {
  }

  const NUL := '\0'

  function Encode(s: string): (t: string)
    requires AllBytes(s)
  {
    if |s| == 0 then ""
    else if |s| == 1 then [Symbol(S1(s[0])), Symbol(S2(s[0], NUL)), '=', '=']
    else if |s| == 2 then [Symbol(S1(s[0])), Symbol(S2(s[0], s[1])), Symbol(S3(s[1], NUL)), '=']
    else Quantum(s[0], s[1], s[2]) + Encode(s[3..])
  }

  function Quantum(x: char, y: char, z: char): string
    requires IsByte(x) && IsByte(y) && IsByte(z)
  {
    [Symbol(S1(x)), Symbol(S2(x, y)), Symbol(S3(y, z)), Symbol(S4(z))]
  }

  /** The decoder skips line ends wherever they are. */
  function WithoutLineEnds(t: string): string {
    if t == "" then "" else (if t[0] == CR || t[0] == LF then "" else [t[0]]) + WithoutLineEnds(t[1..])
  }

  function DecodeQuanta(t: string): Option<string> {
    if |t| == 0 then Some("")
    else if |t| < 4 || ValueOf(t[0]) == 64 || ValueOf(t[1]) == 64 then None
    else if t[2] == '=' then
      if t[3] == '=' && |t| == 4 then Some([O1(ValueOf(t[0]), ValueOf(t[1]))]) else None
    else if ValueOf(t[2]) == 64 then None
    else if t[3] == '=' then
      if |t| == 4 then Some([O1(ValueOf(t[0]), ValueOf(t[1])), O2(ValueOf(t[1]), ValueOf(t[2]))]) else None
    else if ValueOf(t[3]) == 64 then None
    else
      var rest := DecodeQuanta(t[4..]);
      if rest.None? then None
      else Some([O1(ValueOf(t[0]), ValueOf(t[1])), O2(ValueOf(t[1]), ValueOf(t[2])),
        O3(ValueOf(t[2]), ValueOf(t[3]))] + rest.value)
  }

  function Decode(t: string): Option<string> { DecodeQuanta(WithoutLineEnds(t)) }

  predicate AllSymbols(t: string) { forall i :: 0 <= i < |t| ==> IsSymbol(t[i]) }

  lemma {:induction false} EncodesSymbols(s: string)
    requires AllBytes(s)
    ensures AllSymbols(Encode(s)) && (Encode(s) == "" <==> s == "")
  {
    if |s| > 0 {
      SymbolValue(S1(s[0]));
      SymbolValue(S2(s[0], if |s| == 1 then NUL else s[1]));
      if |s| > 1 {
        SymbolValue(S3(s[1], if |s| == 2 then NUL else s[2]));
      }
      if |s| > 2 {
        SymbolValue(S4(s[2]));
        EncodesSymbols(s[3..]);
      }
    }
  }

  lemma OneByte(x: char)
    requires IsByte(x)
    ensures DecodeQuanta([Symbol(S1(x)), Symbol(S2(x, NUL)), '=', '=']) == Some([x])
  {
    Regroups(x, NUL, NUL);
    SymbolValue(S1(x));
    SymbolValue(S2(x, NUL));
  }

  lemma TwoBytes(x: char, y: char)
    requires IsByte(x) && IsByte(y)
    ensures DecodeQuanta([Symbol(S1(x)), Symbol(S2(x, y)), Symbol(S3(y, NUL)), '=']) == Some([x, y])
  {
    Regroups(x, y, NUL);
    SymbolValue(S1(x));
    SymbolValue(S2(x, y));
    SymbolValue(S3(y, NUL));
  }

  /** A whole quantum decodes to its three bytes, whatever follows. */
  lemma ThreeBytes(x: char, y: char, z: char, t: string)
    requires IsByte(x) && IsByte(y) && IsByte(z)
    ensures DecodeQuanta(Quantum(x, y, z) + t) ==
              if DecodeQuanta(t).None? then None else Some([x, y, z] + DecodeQuanta(t).value)
  {
    Regroups(x, y, z);
    SymbolValue(S1(x));
    SymbolValue(S2(x, y));
    SymbolValue(S3(y, z));
    SymbolValue(S4(z));
    var q := Quantum(x, y, z) + t;
    assert q[4..] == t;
    assert q[0] == Symbol(S1(x)) && q[1] == Symbol(S2(x, y)) && q[2] == Symbol(S3(y, z)) && q[3] == Symbol(S4(z));
  }

  lemma ShortRoundTrip(s: string)
    requires AllBytes(s) && |s| < 3
    ensures DecodeQuanta(Encode(s)) == Some(s)
  {
    if |s| == 1 {
      OneByte(s[0]);
      assert s == [s[0]];
    } else if |s| == 2 {
      TwoBytes(s[0], s[1]);
      assert s == [s[0], s[1]];
    }
  }

  lemma EncodeStep(s: string)
    requires AllBytes(s) && |s| >= 3
    ensures Encode(s) == Quantum(s[0], s[1], s[2]) + Encode(s[3..]) && s == [s[0], s[1], s[2]] + s[3..]
  {
    FirstThree(s);
  }

  lemma FirstThree<T>(s: seq<T>)
    requires |s| >= 3
    ensures s == [s[0], s[1], s[2]] + s[3..]
  {
  }

  lemma {:induction false} QuantaRoundTrip(s: string)
    requires AllBytes(s)
    ensures DecodeQuanta(Encode(s)) == Some(s)
  {
    if |s| < 3 {
      ShortRoundTrip(s);
    } else {
      EncodeStep(s);
      QuantaRoundTrip(s[3..]);
      ThreeBytes(s[0], s[1], s[2], Encode(s[3..]));
    }
  }

  lemma {:induction false} Skips(a: string, c: char, b: string)
    requires c == CR || c == LF
    ensures WithoutLineEnds(a + [c] + b) == WithoutLineEnds(a + b)
  {
    if a == "" {
      assert ([c] + b)[1..] == b && a + [c] + b == [c] + b && a + b == b;
    } else {
      assert (a + [c] + b)[1..] == a[1..] + [c] + b && (a + b)[1..] == a[1..] + b;
      Skips(a[1..], c, b);
    }
  }

  /** Line ends inside the code do not count. */
  lemma LineEndsDoNotCount(a: string, c: char, b: string)
    requires c == CR || c == LF
    ensures Decode(a + [c] + b) == Decode(a + b)
  {
    Skips(a, c, b);
  }

  // ── The code as RFC 4648 defines it ────────────────────────────────────────

  /** The alphabet of section 4, table 1: A to Z, a to z, 0 to 9, plus, slash. */
  lemma Alphabet(n: nat)
    requires n < 63
    ensures Symbol(0) == 'A' && Symbol(25) == 'Z' && Symbol(26) == 'a' && Symbol(51) == 'z'
    ensures Symbol(52) == '0' && Symbol(61) == '9' && Symbol(62) == '+' && Symbol(63) == '/'
    ensures n !in {25, 51, 61, 62} ==> Symbol(n + 1) as int == Symbol(n) as int + 1
  {
  }

  /** Exactly the characters of the alphabet have a value, their place in it. */
  lemma ValueOfIff(c: char, n: nat)
    requires n < 64
    ensures ValueOf(c) == n <==> c == Symbol(n)
  {
  }

  /** Byte i of the input, or a zero byte past its end. */
  function OctetAt(s: string, i: nat): nat { if i < |s| then s[i] as nat else 0 }

  /** A pad counts as a zero sextet. */
  function SextetOf(c: char): nat { if c == '=' then 0 else ValueOf(c) }

  /** Four characters of code as one number of 24 bits. */
  function Bits(t: string): nat
    requires |t| == 4
  {
    SextetOf(t[0]) * 262144 + SextetOf(t[1]) * 4096 + SextetOf(t[2]) * 64 + SextetOf(t[3])
  }

  lemma SameBits(x: char, y: char, z: char)
    requires IsByte(x) && IsByte(y) && IsByte(z)
    ensures S1(x) * 262144 + S2(x, y) * 4096 + S3(y, z) * 64 + S4(z) == x as nat * 65536 + y as nat * 256 + z as nat
  {
  }

  /** The group of code that stands for three bytes at the start, fewer being padded on the right. */
  lemma GroupBits(s: string)
    requires AllBytes(s) && s != ""
    ensures var t := Encode(s);
            && |t| >= 4
            && Bits(t[..4]) == OctetAt(s, 0) * 65536 + OctetAt(s, 1) * 256 + OctetAt(s, 2)
            && t[0] != '=' && t[1] != '=' && (t[2] == '=' <==> |s| == 1) && (t[3] == '=' <==> |s| <= 2)
  {
    var x, y, z := s[0], if |s| > 1 then s[1] else NUL, if |s| > 2 then s[2] else NUL;
    SameBits(x, y, z);
    SymbolValue(S1(x));
    SymbolValue(S2(x, y));
    SymbolValue(S3(y, z));
    SymbolValue(S4(z));
    if |s| >= 3 {
      EncodeStep(s);
    }
  }

  lemma FourOf(t: string, i: nat)
    requires 4 <= i && i + 4 <= |t|
    ensures t[4..][i - 4..i] == t[i..i + 4]
    ensures t[4..][i - 4] == t[i] && t[4..][i - 3] == t[i + 1] && t[4..][i - 2] == t[i + 2] && t[4..][i - 1] == t[i + 3]
  {
  }

  lemma {:induction false} EncodeLength(s: string)
    requires AllBytes(s)
    ensures |Encode(s)| == (|s| + 2) / 3 * 4
    decreases |s|
  {
    if |s| >= 3 {
      EncodeStep(s);
      EncodeLength(s[3..]);
      assert (|s| + 2) / 3 == (|s[3..]| + 2) / 3 + 1;
    }
  }

  /** The group at k stands for the bytes from 3k on. */
  ghost predicate Stands(s: string, t: string, k: nat) {
    && 4 * k + 4 <= |t|
    && Bits(t[4 * k..4 * k + 4]) == OctetAt(s, 3 * k) * 65536 + OctetAt(s, 3 * k + 1) * 256 + OctetAt(s, 3 * k + 2)
    && t[4 * k] != '=' && t[4 * k + 1] != '='
    && (t[4 * k + 2] == '=' <==> 3 * k + 1 == |s|) && (t[4 * k + 3] == '=' <==> 3 * k + 3 > |s|)
  }

  lemma CodeTail(s: string)
    requires AllBytes(s) && |s| > 3
    ensures |Encode(s)| >= 4 && Encode(s)[4..] == Encode(s[3..])
  {
    EncodeStep(s);
  }

  lemma FirstStands(s: string)
    requires AllBytes(s) && s != ""
    ensures Stands(s, Encode(s), 0)
  {
    GroupBits(s);
    assert Encode(s)[0..4] == Encode(s)[..4];
  }

  lemma StandsLater(s: string, t: string, k: nat)
    requires 3 < |s| && 4 <= |t| && 0 < k && Stands(s[3..], t[4..], k - 1)
    ensures Stands(s, t, k)
  {
    FourOf(t, 4 * k);
    assert OctetAt(s[3..], 3 * (k - 1)) == OctetAt(s, 3 * k);
    assert OctetAt(s[3..], 3 * (k - 1) + 1) == OctetAt(s, 3 * k + 1);
    assert OctetAt(s[3..], 3 * (k - 1) + 2) == OctetAt(s, 3 * k + 2);
  }

  /**
   Each four characters of the code are the 24 bits of the three bytes they
   stand for, read as one number; pads stand exactly where there was no byte.
   */
  lemma {:induction false} CodeIsTheBits(s: string, k: nat)
    requires AllBytes(s) && 3 * k < |s|
    ensures Stands(s, Encode(s), k)
    decreases |s|
  {
    if k == 0 {
      FirstStands(s);
    } else {
      CodeIsTheBits(s[3..], k - 1);
      CodeStep(s, k);
    }
  }

  lemma CodeStep(s: string, k: nat)
    requires AllBytes(s) && |s| > 3 && 0 < k && Stands(s[3..], Encode(s[3..]), k - 1)
    ensures Stands(s, Encode(s), k)
  {
    CodeTail(s);
    StandsLater(s, Encode(s), k);
  }

  lemma {:induction false} SymbolsHaveNoLineEnds(t: string)
    requires AllSymbols(t)
    ensures WithoutLineEnds(t) == t
  {
    if t != "" {
      SymbolsHaveNoLineEnds(t[1..]);
    }
  }

  /** Decoding undoes encoding, for every byte string. */
  lemma RoundTrip(s: string)
    requires AllBytes(s)
    ensures Decode(Encode(s)) == Some(s)
  {
    EncodesSymbols(s);
    SymbolsHaveNoLineEnds(Encode(s));
    QuantaRoundTrip(s);
  }

  // ── What decodes ───────────────────────────────────────────────────────────

  /** Whole groups of four symbols, with at most two pads, at the end of the last. */
  ghost predicate WellFormed(t: string, pads: nat) {
    && |t| % 4 == 0 && pads <= 2 && pads <= |t|
    && (forall i :: 0 <= i < |t| - pads ==> ValueOf(t[i]) < 64)
    && (forall i :: |t| - pads <= i < |t| ==> t[i] == '=')
  }

  lemma WellFormedRest(t: string, pads: nat)
    requires 4 <= |t| && ValueOf(t[0]) < 64 && ValueOf(t[1]) < 64 && ValueOf(t[2]) < 64 && ValueOf(t[3]) < 64
    ensures WellFormed(t, pads) <==> WellFormed(t[4..], pads)
  {
    if WellFormed(t[4..], pads) {
      forall i | 0 <= i < |t| - pads ensures ValueOf(t[i]) < 64 {
        assert i >= 4 ==> t[i] == t[4..][i - 4];
      }
      forall i | |t| - pads <= i < |t| ensures t[i] == '=' {
        assert i >= 4 ==> t[i] == t[4..][i - 4];
      }
    }
  }

  /** Decoding succeeds exactly on well-formed code, whatever the unused bits before a pad. */
  lemma {:induction false} DecodesIff(t: string)
    ensures DecodeQuanta(t).Some? <==> exists pads :: WellFormed(t, pads)
    decreases |t|
  {
    if t == "" {
      assert WellFormed(t, 0);
    } else if |t| >= 4 && ValueOf(t[0]) < 64 && ValueOf(t[1]) < 64 && ValueOf(t[2]) < 64 && ValueOf(t[3]) < 64 {
      DecodesIff(t[4..]);
      forall pads: nat ensures WellFormed(t, pads) <==> WellFormed(t[4..], pads) {
        WellFormedRest(t, pads);
      }
    } else if |t| == 4 && ValueOf(t[0]) < 64 && ValueOf(t[1]) < 64 && t[3] == '=' {
      assert ValueOf(t[2]) < 64 ==> WellFormed(t, 1);
      assert t[2] == '=' ==> WellFormed(t, 2);
    } else {
      forall pads: nat ensures !WellFormed(t, pads) {
        NotWellFormed(t, pads);
      }
    }
  }

  lemma NotWellFormed(t: string, pads: nat)
    requires t != ""
    requires !(|t| >= 4 && ValueOf(t[0]) < 64 && ValueOf(t[1]) < 64 && ValueOf(t[2]) < 64 && ValueOf(t[3]) < 64)
    requires !(|t| == 4 && ValueOf(t[0]) < 64 && ValueOf(t[1]) < 64 && t[3] == '=')
    ensures !WellFormed(t, pads)
  {
  }

  // ── Lines ──────────────────────────────────────────────────────────────────

  function Concat(ss: seq<string>): string {
    if ss == [] then "" else ss[0] + Concat(ss[1..])
  }

  /** Every line followed by end. */
  function Terminated(lines: seq<string>, end: string): string {
    if lines == [] then "" else lines[0] + end + Terminated(lines[1..], end)
  }

  lemma {:induction false} TerminatedAppend(a: seq<string>, b: seq<string>, end: string)
    ensures Terminated(a + b, end) == Terminated(a, end) + Terminated(b, end)
  {
    if a == [] {
      assert a + b == b;
    } else {
      assert (a + b)[1..] == a[1..] + b;
      TerminatedAppend(a[1..], b, end);
    }
  }

  lemma {:induction false} IndexAfter(line: string, c: char, rest: string)
    requires c !in line
    ensures IndexOf(line + [c] + rest, c) == |line|
  {
    if line != "" {
      assert (line + [c] + rest)[1..] == line[1..] + [c] + rest;
      IndexAfter(line[1..], c, rest);
    }
  }

  function DropCR(s: string): string { if |s| > 0 && s[|s| - 1] == CR then s[..|s| - 1] else s }

  /** bufio.ScanLines: lines end at LF, lose one CR before it, and the last may be unterminated. */
  function ScanLines(s: string): seq<string>
    decreases |s|
  {
    if s == "" then []
    else
      var k := IndexOf(s, LF);
      if k == |s| then [DropCR(s)] else [DropCR(s[..k])] + ScanLines(s[k + 1..])
  }

  predicate Plain(line: string) { CR !in line && LF !in line }

  ghost predicate AllPlain(lines: seq<string>) { forall l :: l in lines ==> Plain(l) }

  lemma ScanOne(line: string, end: string, rest: string)
    requires LF !in line && LF !in end
    ensures ScanLines(line + end + [LF] + rest) == [DropCR(line + end)] + ScanLines(rest)
  {
    IndexAfter(line + end, LF, rest);
    var s := line + end + [LF] + rest;
    assert s[..|line + end|] == line + end && s[|line + end| + 1..] == rest;
  }

  /** What the channel may do to line ends: any number of CRs, up to two, before each LF. */
  function Mangled(lines: seq<string>, crs: seq<nat>): string
    requires |crs| == |lines|
  {
    if lines == [] then "" else lines[0] + CRs(crs[0]) + [LF] + Mangled(lines[1..], crs[1..])
  }

  function CRs(n: nat): string { if n == 0 then "" else if n == 1 then [CR] else [CR, CR] }

  /** Lines as received: each as sent, or with one CR left on it. */
  predicate Survives(received: seq<string>, lines: seq<string>) {
    if lines == [] then received == []
    else
      && received != [] && (received[0] == lines[0] || received[0] == lines[0] + [CR])
      && Survives(received[1..], lines[1..])
  }

  lemma {:induction false} MangledSurvives(lines: seq<string>, crs: seq<nat>)
    requires |crs| == |lines| && AllPlain(lines)
    ensures Survives(ScanLines(Mangled(lines, crs)), lines)
  {
    if lines != [] {
      var end := CRs(crs[0]);
      assert lines[0] in lines;
      ScanOne(lines[0], end, Mangled(lines[1..], crs[1..]));
      assert DropCR(lines[0] + end) == lines[0] || DropCR(lines[0] + end) == lines[0] + [CR];
      MangledSurvives(lines[1..], crs[1..]);
    }
  }

  lemma {:induction false} TerminatedScans(lines: seq<string>)
    requires AllPlain(lines)
    ensures ScanLines(Terminated(lines, [LF])) == lines
  {
    if lines != [] {
      var rest := Terminated(lines[1..], [LF]);
      assert lines[0] in lines;
      assert lines[0] + [LF] + rest == lines[0] + "" + [LF] + rest by { assert lines[0] + "" == lines[0]; }
      ScanOne(lines[0], "", rest);
      assert DropCR(lines[0]) == lines[0];
      assert lines[0] + "" == lines[0];
      TerminatedScans(lines[1..]);
    }
  }

  // ── Messages as lines ──────────────────────────────────────────────────────

  function ChunkLines(e: string): seq<string>
    decreases |e|
  {
    if e == "" then []
    else if |e| > CHUNK then [e[..CHUNK]] + ChunkLines(e[CHUNK..])
    else [e]
  }

  /** A message on the wire: its code in lines of at most 4096 symbols, then a dot. */
  function MessageLines(m: string): seq<string>
    requires AllBytes(m)
  {
    ChunkLines(Encode(m)) + ["."]
  }

  ghost predicate AllMessages(ms: seq<string>) { forall m :: m in ms ==> AllBytes(m) }

  function AllLines(ms: seq<string>): seq<string>
    requires AllMessages(ms)
  {
    if ms == [] then [] else MessageLines(ms[0]) + AllLines(ms[1..])
  }

  predicate IsChunk(l: string) { 0 < |l| <= CHUNK && AllSymbols(l) }

  lemma {:induction false} ChunksAreSymbols(e: string)
    requires AllSymbols(e)
    ensures forall l :: l in ChunkLines(e) ==> IsChunk(l)
    decreases |e|
  {
    if |e| > CHUNK {
      ChunksAreSymbols(e[CHUNK..]);
    }
  }

  lemma ChunkIsPlain(l: string)
    requires IsChunk(l)
    ensures Plain(l) && l[0] != '.'
  {
  }

  lemma {:induction false} LinesArePlain(ms: seq<string>)
    requires AllMessages(ms)
    ensures AllPlain(AllLines(ms))
  {
    if ms != [] {
      assert ms[0] in ms;
      LinesArePlain(ms[1..]);
      EncodesSymbols(ms[0]);
      ChunksAreSymbols(Encode(ms[0]));
      forall l | l in AllLines(ms) ensures Plain(l) {
        if l in ChunkLines(Encode(ms[0])) {
          ChunkIsPlain(l);
        }
      }
    }
  }

  // ── Client to socket ───────────────────────────────────────────────────────

  /** What the proxy writes to the socket for lines read from its input, with some lines gathered already. */
  function ToSocket(lines: seq<string>, accum: string): string
    decreases |lines|
  {
    if lines == [] then ""
    else if lines[0] == "." then
      var d := Decode(accum);
      (if d.None? then "" else d.value) + ToSocket(lines[1..], "")
    else ToSocket(lines[1..], accum + lines[0])
  }

  function Head(e: string): string { if |e| > CHUNK then e[..CHUNK] else e }
  function Tail(e: string): string { if |e| > CHUNK then e[CHUNK..] else "" }

  lemma FirstLine(e: string)
    requires e != "" && AllSymbols(e)
    ensures ChunkLines(e) == [Head(e)] + ChunkLines(Tail(e)) && e == Head(e) + Tail(e)
    ensures IsChunk(Head(e)) && AllSymbols(Tail(e)) && Plain(Head(e)) && Head(e)[0] != '.'
  {
    ChunkIsPlain(Head(e));
  }

  lemma GatherOne(lines: seq<string>, head: string, rest: seq<string>, accum: string)
    requires lines == [head] + rest && head != "" && head[0] != '.'
    ensures ToSocket(lines, accum) == ToSocket(rest, accum + head)
  {
    assert lines[1..] == rest;
  }

  lemma {:induction false} ChunksGather(e: string, rest: seq<string>, accum: string)
    requires AllSymbols(e)
    ensures ToSocket(ChunkLines(e) + rest, accum) == ToSocket(rest, accum + e)
    decreases |e|
  {
    if e == "" {
      assert ChunkLines(e) + rest == rest && accum + e == accum;
    } else {
      FirstLine(e);
      assert ChunkLines(e) + rest == [Head(e)] + (ChunkLines(Tail(e)) + rest);
      GatherOne(ChunkLines(e) + rest, Head(e), ChunkLines(Tail(e)) + rest, accum);
      ChunksGather(Tail(e), rest, accum + Head(e));
      assert accum + Head(e) + Tail(e) == accum + e;
    }
  }

  lemma AllLinesStep(ms: seq<string>)
    requires AllMessages(ms) && ms != []
    ensures AllBytes(ms[0]) && AllMessages(ms[1..])
    ensures AllLines(ms) == ChunkLines(Encode(ms[0])) + (["."] + AllLines(ms[1..]))
  {
    assert ms[0] in ms;
  }

  lemma {:induction false} LinesArrive(ms: seq<string>)
    requires AllMessages(ms)
    ensures ToSocket(AllLines(ms), "") == Concat(ms)
  {
    if ms != [] {
      var m, later := ms[0], AllLines(ms[1..]);
      AllLinesStep(ms);
      EncodesSymbols(m);
      ChunksGather(Encode(m), ["."] + later, "");
      assert "" + Encode(m) == Encode(m);
      assert (["."] + later)[1..] == later;
      RoundTrip(m);
      LinesArrive(ms[1..]);
    }
  }

  /** The terminal turns every CR typed at it into LF. */
  function CrToLf(s: string): string {
    if s == "" then "" else [if s[0] == CR then LF else s[0]] + CrToLf(s[1..])
  }

  lemma {:induction false} CrToLfAppend(a: string, b: string)
    ensures CrToLf(a + b) == CrToLf(a) + CrToLf(b)
  {
    if a == "" {
      assert a + b == b;
    } else {
      assert (a + b)[1..] == a[1..] + b;
      CrToLfAppend(a[1..], b);
    }
  }

  lemma {:induction false} PlainUnchanged(a: string)
    requires CR !in a
    ensures CrToLf(a) == a
  {
    if a != "" {
      PlainUnchanged(a[1..]);
      assert a == [a[0]] + a[1..];
    }
  }

  lemma {:induction false} TypedLines(lines: seq<string>)
    requires AllPlain(lines)
    ensures CrToLf(Terminated(lines, [CR])) == Terminated(lines, [LF])
  {
    if lines != [] {
      assert lines[0] in lines;
      CrToLfAppend(lines[0] + [CR], Terminated(lines[1..], [CR]));
      CrToLfAppend(lines[0], [CR]);
      PlainUnchanged(lines[0]);
      assert CrToLf([CR]) == [LF] by { assert [CR][1..] == ""; }
      TypedLines(lines[1..]);
    }
  }

  function Written(ms: seq<string>): string
    requires AllMessages(ms)
  {
    Terminated(AllLines(ms), [CR])
  }

  /** Main result, client to server: any sequence of writes, empty ones included, reaches the socket byte for byte. */
  lemma WritesReachTheSocket(ms: seq<string>)
    requires AllMessages(ms)
    ensures ToSocket(ScanLines(CrToLf(Written(ms))), "") == Concat(ms)
  {
    LinesArePlain(ms);
    TypedLines(AllLines(ms));
    TerminatedScans(AllLines(ms));
    LinesArrive(ms);
  }

  /** A line end with at most one CR before its LF reads as if there were none. */
  lemma {:induction false} MangledScans(lines: seq<string>, crs: seq<nat>)
    requires |crs| == |lines| && AllPlain(lines) && forall i :: 0 <= i < |crs| ==> crs[i] <= 1
    ensures ScanLines(Mangled(lines, crs)) == lines
  {
    if lines != [] {
      var end := CRs(crs[0]);
      assert lines[0] in lines;
      ScanOne(lines[0], end, Mangled(lines[1..], crs[1..]));
      assert DropCR(lines[0] + end) == lines[0];
      MangledScans(lines[1..], crs[1..]);
    }
  }

  /** The same when some of the CRs typed arrive as CRLF and others as LF. */
  lemma MangledWritesReachTheSocket(ms: seq<string>, crs: seq<nat>)
    requires AllMessages(ms) && |crs| == |AllLines(ms)| && forall i :: 0 <= i < |crs| ==> crs[i] <= 1
    ensures ToSocket(ScanLines(Mangled(AllLines(ms), crs)), "") == Concat(ms)
  {
    LinesArePlain(ms);
    MangledScans(AllLines(ms), crs);
    LinesArrive(ms);
  }

  lemma {:induction false} AllLinesOne(ms: seq<string>, m: string)
    requires AllMessages(ms) && AllBytes(m)
    ensures AllLines(ms + [m]) == AllLines(ms) + MessageLines(m)
  {
    if ms == [] {
      assert [] + [m] == [m] && [m][1..] == [];
      assert AllLines([m]) == MessageLines(m) + AllLines([]);
    } else {
      assert ms[0] in ms;
      assert (ms + [m])[1..] == ms[1..] + [m];
      AllLinesOne(ms[1..], m);
    }
  }

  lemma WrittenOne(ms: seq<string>, m: string)
    requires AllMessages(ms) && AllBytes(m)
    ensures Written(ms + [m]) == Written(ms) + Terminated(MessageLines(m), [CR])
  {
    AllLinesOne(ms, m);
    TerminatedAppend(AllLines(ms), MessageLines(m), [CR]);
  }

  /** Cuts a code into lines. Both ends share this loop and differ in the line end. */
  method WriteChunks(code: string, end: string) returns (out: string)
    ensures out == Terminated(ChunkLines(code), end)
  {
    var encoded := code;
    out := "";
    while |encoded| > 0
      invariant out + Terminated(ChunkLines(encoded), end) == Terminated(ChunkLines(code), end)
    {
      var chunk := encoded;
      if |chunk| > CHUNK {
        chunk := encoded[..CHUNK];
      }
      FirstChunk(encoded, end);
      encoded := encoded[|chunk|..];
      out := out + chunk + end;
    }
  }

  lemma FirstChunk(e: string, end: string)
    requires e != ""
    ensures var k := if |e| > CHUNK then CHUNK else |e|;
            Terminated(ChunkLines(e), end) == e[..k] + end + Terminated(ChunkLines(e[k..]), end)
  {
    var k := if |e| > CHUNK then CHUNK else |e|;
    assert e[..|e|] == e && e[|e|..] == "";
    assert ChunkLines(e) == [e[..k]] + ChunkLines(e[k..]);
  }

  lemma TerminatedOne(line: string, end: string)
    ensures Terminated([line], end) == line + end
  {
    assert [line][1..] == [];
    assert Terminated([], end) == "" && line + end + "" == line + end;
  }

  lemma DotEnds(lines: seq<string>, end: string)
    ensures Terminated(lines + ["."], end) == Terminated(lines, end) + ("." + end)
  {
    TerminatedAppend(lines, ["."], end);
    TerminatedOne(".", end);
  }

  class Base64Writer {
    // Everything written to the terminal, and every message handed to Write.
    var sent: string
    ghost var messages: seq<string>

    ghost predicate Valid()
      reads this
    {
      AllMessages(messages) && sent == Written(messages)
    }

    constructor ()
      ensures Valid() && messages == []
    {
      sent, messages := "", [];
    }

    method Write(b: string) returns (n: nat)
      requires Valid() && AllBytes(b)
      modifies this
      ensures Valid() && messages == old(messages) + [b] && n == |b|
    {
      WrittenOne(messages, b);
      DotEnds(ChunkLines(Encode(b)), [CR]);
      var text := WriteChunks(Encode(b), [CR]);
      sent := sent + text + ("." + [CR]);
      messages := messages + [b];
      n := |b|;
    }
  }

  /** The proxy's input side. */
  method ProxyStdin(input: string) returns (socket: string)
    ensures socket == ToSocket(ScanLines(input), "")
  {
    var lines := ScanLines(input);
    var accum := "";
    socket := "";
    for i := 0 to |lines|
      invariant socket + ToSocket(lines[i..], accum) == ToSocket(lines, "")
    {
      assert lines[i..][1..] == lines[i + 1..];
      if lines[i] == "." {
        var decoded := Decode(accum);
        if decoded.Some? {
          socket := socket + decoded.value;
        }
        accum := "";
      } else {
        accum := accum + lines[i];
      }
    }
  }

  lemma {:induction false} AnyLinesGather(ls: seq<string>, rest: seq<string>, accum: string)
    requires forall i :: 0 <= i < |ls| ==> ls[i] != "."
    ensures ToSocket(ls + rest, accum) == ToSocket(rest, accum + Concat(ls))
    decreases |ls|
  {
    if ls == [] {
      assert ls + rest == rest && accum + "" == accum;
    } else {
      assert (ls + rest)[0] == ls[0] && (ls + rest)[1..] == ls[1..] + rest;
      AnyLinesGather(ls[1..], rest, accum + ls[0]);
      assert accum + ls[0] + Concat(ls[1..]) == accum + (ls[0] + Concat(ls[1..]));
    }
  }

  /**
   Whatever lines come before a dot, they are one message: what they decode to
   is written, or nothing if they do not decode, and the next message starts
   afresh. Lines with no dot after them write nothing.
   */
  lemma MessageIsDecodedOrSkipped(ls: seq<string>, rest: seq<string>)
    requires forall i :: 0 <= i < |ls| ==> ls[i] != "."
    ensures var d := Decode(Concat(ls));
            ToSocket(ls + (["."] + rest), "") == (if d.Some? then d.value else "") + ToSocket(rest, "")
    ensures ToSocket(ls, "") == ""
  {
    AnyLinesGather(ls, ["."] + rest, "");
    AnyLinesGather(ls, [], "");
    assert ls + [] == ls && "" + Concat(ls) == Concat(ls);
    assert (["."] + rest)[1..] == rest;
  }

  // ── Socket to client ───────────────────────────────────────────────────────

  /**
   What the reader hands out for received lines: blanks and empty messages are skipped, and each
   message gets its LF back.
   */
  function FromLines(lines: seq<string>, accum: string): string
    decreases |lines|
  {
    if lines == [] then ""
    else if lines[0] == "" || lines[0] == [CR] then FromLines(lines[1..], accum)
    else if lines[0] == "." || lines[0] == "." + [CR] then
      if accum == "" then FromLines(lines[1..], "")
      else
        var d := Decode(accum);
        (if d.None? then "" else d.value + [LF]) + FromLines(lines[1..], "")
    else FromLines(lines[1..], accum + DropCR(lines[0]))
  }

  /** A line with code on it, whatever that code is. */
  predicate CarriesCode(line: string) { line != "" && line != [CR] && line != "." && line != "." + [CR] }

  function WithoutCRs(ls: seq<string>): string {
    if ls == [] then "" else (if ls[0] != "" && ls[0][|ls[0]| - 1] == CR then ls[0][..|ls[0]| - 1] else ls[0]) +
                             WithoutCRs(ls[1..])
  }

  lemma {:induction false} AnyCodeGathers(ls: seq<string>, rest: seq<string>, accum: string)
    requires forall i :: 0 <= i < |ls| ==> CarriesCode(ls[i])
    ensures FromLines(ls + rest, accum) == FromLines(rest, accum + WithoutCRs(ls))
    decreases |ls|
  {
    if ls == [] {
      assert ls + rest == rest && accum + "" == accum;
    } else {
      assert (ls + rest)[0] == ls[0] && (ls + rest)[1..] == ls[1..] + rest && CarriesCode(ls[0]);
      AnyCodeGathers(ls[1..], rest, accum + DropCR(ls[0]));
      assert accum + DropCR(ls[0]) + WithoutCRs(ls[1..]) == accum + (DropCR(ls[0]) + WithoutCRs(ls[1..]));
    }
  }

  /**
   The same on the client: the lines before a dot, less their CRs, are one
   message, handed out with an LF if they decode and dropped if they are empty
   or do not. Blank lines do not count.
   */
  lemma MessageIsHandedOutOrSkipped(ls: seq<string>, dot: string, rest: seq<string>)
    requires (forall i :: 0 <= i < |ls| ==> CarriesCode(ls[i])) && (dot == "." || dot == "." + [CR])
    ensures var d := Decode(WithoutCRs(ls));
            FromLines(ls + ([dot] + rest), "") ==
              (if WithoutCRs(ls) != "" && d.Some? then d.value + [LF] else "") + FromLines(rest, "")
    ensures FromLines(ls, "") == "" && FromLines([""] + ls, "") == FromLines([[CR]] + ls, "") == ""
  {
    AnyCodeGathers(ls, [dot] + rest, "");
    AnyCodeGathers(ls, [], "");
    assert ls + [] == ls && "" + WithoutCRs(ls) == WithoutCRs(ls);
    assert ([dot] + rest)[1..] == rest && ([""] + ls)[1..] == ls && ([[CR]] + ls)[1..] == ls;
  }

  lemma ReceiveOne(received: seq<string>, head: string, rest: seq<string>, accum: string)
    requires head != "" && head[0] != '.' && Plain(head)
    requires received == [head] + rest || received == [head + [CR]] + rest
    ensures FromLines(received, accum) == FromLines(rest, accum + head)
  {
    assert received[1..] == rest && received[0][0] == head[0];
    assert DropCR(received[0]) == head;
  }

  lemma {:induction false} ReceivedGather(received: seq<string>, e: string, rest: seq<string>, accum: string)
    requires AllSymbols(e) && Survives(received, ChunkLines(e))
    ensures FromLines(received + rest, accum) == FromLines(rest, accum + e)
    decreases |e|
  {
    if e == "" {
      assert received + rest == rest && accum + e == accum;
    } else {
      FirstLine(e);
      assert ChunkLines(e)[1..] == ChunkLines(Tail(e));
      assert received + rest == [received[0]] + (received[1..] + rest);
      ReceiveOne(received + rest, Head(e), received[1..] + rest, accum);
      ReceivedGather(received[1..], Tail(e), rest, accum + Head(e));
      assert accum + Head(e) + Tail(e) == accum + e;
    }
  }

  /** The socket's non-empty lines, each with its LF. */
  function Delivered(ms: seq<string>): string {
    if ms == [] then "" else (if ms[0] == "" then "" else ms[0] + [LF]) + Delivered(ms[1..])
  }

  /** The dot after a message's lines hands the message out. */
  lemma DotDelivers(received: seq<string>, m: string, rest: seq<string>)
    requires AllBytes(m) && (received == ["."] + rest || received == ["." + [CR]] + rest)
    ensures FromLines(received, Encode(m)) == (if m == "" then "" else m + [LF]) + FromLines(rest, "")
  {
    EncodesSymbols(m);
    RoundTrip(m);
    assert received[1..] == rest;
  }

  lemma {:induction false} SurvivesSplit(received: seq<string>, a: seq<string>, b: seq<string>)
    requires Survives(received, a + b)
    ensures |a| <= |received| && Survives(received[..|a|], a) && Survives(received[|a|..], b)
  {
    if a == [] {
      assert a + b == b && received[0..] == received;
    } else {
      assert (a + b)[1..] == a[1..] + b;
      SurvivesSplit(received[1..], a[1..], b);
      assert received[..|a|][1..] == received[1..][..|a| - 1] && received[1..][|a| - 1..] == received[|a|..];
    }
  }

  /** One message's lines, received, hand out the message and leave the lines after its dot. */
  lemma MessageDelivered(received: seq<string>, m: string, later: seq<string>) returns (rest: seq<string>)
    requires AllBytes(m) && Survives(received, ChunkLines(Encode(m)) + (["."] + later))
    ensures Survives(rest, later)
    ensures FromLines(received, "") == (if m == "" then "" else m + [LF]) + FromLines(rest, "")
  {
    var chunks := ChunkLines(Encode(m));
    EncodesSymbols(m);
    SurvivesSplit(received, chunks, ["."] + later);
    var tail := received[|chunks|..];
    rest := tail[1..];
    assert (["."] + later)[1..] == later && tail == [tail[0]] + rest;
    assert received == received[..|chunks|] + tail;
    ReceivedGather(received[..|chunks|], Encode(m), tail, "");
    assert "" + Encode(m) == Encode(m);
    DotDelivers(tail, m, rest);
  }

  lemma {:induction false} LinesDelivered(received: seq<string>, ms: seq<string>)
    requires AllMessages(ms) && Survives(received, AllLines(ms))
    ensures FromLines(received, "") == Delivered(ms)
    decreases |ms|
  {
    if ms != [] {
      AllLinesStep(ms);
      var rest := MessageDelivered(received, ms[0], AllLines(ms[1..]));
      LinesDelivered(rest, ms[1..]);
    }
  }

  /** One more line of the socket, after the first i. */
  lemma SocketStep(lines: seq<string>, i: nat)
    requires AllMessages(lines) && i < |lines|
    ensures AllMessages(lines[..i]) && AllMessages(lines[..i + 1]) && AllBytes(lines[i])
    ensures Terminated(AllLines(lines[..i + 1]), [LF]) ==
              Terminated(AllLines(lines[..i]), [LF]) + (Terminated(ChunkLines(Encode(lines[i])), [LF]) + ("." + [LF]))
  {
    assert lines[i] in lines;
    assert lines[..i + 1] == lines[..i] + [lines[i]];
    AllLinesOne(lines[..i], lines[i]);
    TerminatedAppend(AllLines(lines[..i]), MessageLines(lines[i]), [LF]);
    DotEnds(ChunkLines(Encode(lines[i])), [LF]);
  }

  /** The proxy's output side. */
  method ProxySocket(input: string) returns (out: string)
    requires AllBytes(input)
    ensures AllMessages(ScanLines(input)) && out == Terminated(AllLines(ScanLines(input)), [LF])
  {
    LinesAreBytes(input);
    var lines := ScanLines(input);
    out := "";
    for i := 0 to |lines|
      invariant AllMessages(lines[..i]) && out == Terminated(AllLines(lines[..i]), [LF])
    {
      SocketStep(lines, i);
      var text := WriteChunks(Encode(lines[i]), [LF]);
      out := out + (text + ("." + [LF]));
    }
    assert lines[..|lines|] == lines;
  }

  lemma {:induction false} LinesAreBytes(s: string)
    requires AllBytes(s)
    ensures AllMessages(ScanLines(s))
    decreases |s|
  {
    if s != "" && IndexOf(s, LF) < |s| {
      LinesAreBytes(s[IndexOf(s, LF) + 1..]);
    }
  }

  /** Whatever the socket sends, the client receives its non-empty lines, each with its LF. */
  lemma StreamIsDelivered(input: string, crs: seq<nat>)
    requires AllBytes(input) && AllMessages(ScanLines(input)) && |crs| == |AllLines(ScanLines(input))|
    ensures FromLines(ScanLines(Mangled(AllLines(ScanLines(input)), crs)), "") == Delivered(ScanLines(input))
  {
    var ms := ScanLines(input);
    LinesArePlain(ms);
    MangledSurvives(AllLines(ms), crs);
    LinesDelivered(ScanLines(Mangled(AllLines(ms), crs)), ms);
  }

  /** Every line is ended, none is empty, and none ends in CR. */
  predicate WellLined(s: string) {
    && (s != "" ==> s[|s| - 1] == LF)
    && forall i :: 0 <= i < |s| && s[i] == LF ==> i > 0 && s[i - 1] != LF && s[i - 1] != CR
  }

  lemma {:induction false} IndexIsFirst(s: string, c: char)
    ensures IndexOf(s, c) < |s| ==> s[IndexOf(s, c)] == c
    ensures c !in s[..IndexOf(s, c)]
  {
    if s != "" && s[0] != c {
      IndexIsFirst(s[1..], c);
      assert s[..IndexOf(s, c)] == [s[0]] + s[1..][..IndexOf(s[1..], c)];
    }
  }

  lemma Cut(s: string) returns (raw: string, rest: string)
    requires LF in s
    ensures s == raw + [LF] + rest && LF !in raw
  {
    IndexIsFirst(s, LF);
    var k := IndexOf(s, LF);
    assert s[..|s|] == s;
    raw, rest := s[..k], s[k + 1..];
    assert s == s[..k] + [s[k]] + s[k + 1..];
  }

  lemma DeliveredCons(line: string, later: seq<string>)
    ensures Delivered([line] + later) == (if line == "" then "" else line + [LF]) + Delivered(later)
  {
    assert ([line] + later)[1..] == later;
  }

  lemma FirstDelivered(raw: string, rest: string)
    requires LF !in raw
    ensures Delivered(ScanLines(raw + [LF] + rest)) ==
              (if DropCR(raw) == "" then "" else DropCR(raw) + [LF]) + Delivered(ScanLines(rest))
  {
    assert raw + "" == raw;
    ScanOne(raw, "", rest);
    DeliveredCons(DropCR(raw), ScanLines(rest));
  }

  lemma UnendedDelivered(s: string)
    requires LF !in s
    ensures Delivered(ScanLines(s)) == if DropCR(s) == "" then "" else DropCR(s) + [LF]
  {
    IndexIsFirst(s, LF);
    if s != "" {
      assert IndexOf(s, LF) == |s|;
      assert [DropCR(s)] + [] == [DropCR(s)];
      DeliveredCons(DropCR(s), []);
    }
  }

  /** What is delivered is never longer than an ended stream, and is itself ended. */
  lemma {:induction false} DeliveredBounds(s: string)
    ensures var d := Delivered(ScanLines(s));
            (d != "" ==> d[|d| - 1] == LF) && (s == "" || s[|s| - 1] == LF ==> |d| <= |s|)
    decreases |s|
  {
    if LF !in s {
      UnendedDelivered(s);
    } else {
      var raw, rest := Cut(s);
      FirstDelivered(raw, rest);
      DeliveredBounds(rest);
    }
  }

  lemma {:induction false} WellLinedCons(raw: string, rest: string)
    requires LF !in raw
    ensures WellLined(raw + [LF] + rest) <==> raw != "" && raw[|raw| - 1] != CR && WellLined(rest)
  {
    var s, k := raw + [LF] + rest, |raw|;
    assert s[|s| - 1] == if rest == "" then LF else rest[|rest| - 1];
    assert k > 0 ==> s[k - 1] == raw[k - 1];
    if raw != "" && raw[k - 1] != CR && WellLined(rest) {
      forall i | 0 <= i < |s| && s[i] == LF ensures i > 0 && s[i - 1] != LF && s[i - 1] != CR {
        assert i >= k;
        if i > k {
          assert rest[i - k - 1] == LF && s[i - 1] == rest[i - k - 2];
        } else {
          assert s[i - 1] == raw[k - 1] && raw[k - 1] in raw;
        }
      }
    }
    if WellLined(s) {
      assert s[k] == LF;
      forall i | 0 <= i < |rest| && rest[i] == LF ensures i > 0 && rest[i - 1] != LF && rest[i - 1] != CR {
        assert s[i + k + 1] == LF && s[i + k] == if i == 0 then LF else rest[i - 1];
      }
    }
  }

  /** One line comes back with the rest exactly when the rest does and the line is kept whole. */
  lemma LineComesBack(raw: string, rest: string)
    requires LF !in raw
    ensures var s := raw + [LF] + rest;
            Delivered(ScanLines(s)) == s <==>
              raw != "" && raw[|raw| - 1] != CR && Delivered(ScanLines(rest)) == rest
  {
    var s, d := raw + [LF] + rest, Delivered(ScanLines(rest));
    FirstDelivered(raw, rest);
    DeliveredBounds(s);
    DeliveredBounds(rest);
    if raw != "" && raw[|raw| - 1] != CR {
      SamePrefix(raw + [LF], d, rest);
    }
  }

  /**
   Main result, server to client: a stream comes back byte for byte exactly
   when every line of it is ended, not empty, and does not end in CR; the
   scanners on the way drop everything else.
   */
  lemma {:induction false} StreamComesBackIff(s: string)
    ensures Delivered(ScanLines(s)) == s <==> WellLined(s)
    decreases |s|
  {
    if s == "" {
    } else if LF !in s {
      UnendedDelivered(s);
      assert s[|s| - 1] in s;
    } else {
      var raw, rest := Cut(s);
      LineComesBack(raw, rest);
      WellLinedCons(raw, rest);
      StreamComesBackIff(rest);
    }
  }

  /** The failing inputs: a blank line disappears, and a line ending in CR comes back without it. */
  lemma BlankLineAndCRAreLost(line: string)
    requires LF !in line
    ensures Delivered(ScanLines([LF])) == ""
    ensures Delivered(ScanLines(line + [CR] + [LF])) == (if line == "" then "" else line + [LF])
  {
    FirstDelivered("", "");
    assert "" + [LF] + "" == [LF];
    FirstDelivered(line + [CR], "");
    assert line + [CR] + [LF] + "" == line + [CR] + [LF];
    assert DropCR(line + [CR]) == line;
  }

  lemma SamePrefix(a: string, b: string, c: string)
    ensures a + b == a + c <==> b == c
  {
    assert (a + b)[|a|..] == b && (a + c)[|a|..] == c;
  }

  class Base64Reader {
    // Lines not scanned yet, and decoded bytes not handed out yet.
    var lines: seq<string>
    var buf: string

    /** Everything later reads will hand out. */
    ghost function Rest(): string
      reads this
    {
      buf + FromLines(lines, "")
    }

    constructor (input: string)
      ensures Rest() == FromLines(ScanLines(input), "")
    {
      lines, buf := ScanLines(input), "";
    }

    /** One read into a buffer of any size: hands out the next bytes of the stream, and ends only when none are left. */
    method Read(size: nat) returns (out: string, eof: bool)
      modifies this
      ensures |out| <= size && out + Rest() == old(Rest())
      ensures eof <==> old(Rest()) == ""
      ensures size > 0 && !eof ==> |out| > 0
    {
      if |buf| > 0 {
        out := Take(size);
        eof := false;
        return;
      }
      var accum := "";
      ghost var total := FromLines(lines, "");
      while |lines| > 0
        invariant buf == "" && FromLines(lines, accum) == total
        decreases |lines|
      {
        var line := lines[0];
        lines := lines[1..];
        if line == "" || line == [CR] {
          continue;
        }
        if line == "." || line == "." + [CR] {
          if |accum| == 0 {
            continue;
          }
          var decoded := Decode(accum);
          if decoded.None? {
            accum := "";
            continue;
          }
          buf := decoded.value + [LF];
          out := Take(size);
          eof := false;
          return;
        }
        accum := accum + DropCR(line);
      }
      return "", true;
    }

    method Take(size: nat) returns (out: string)
      modifies this`buf
      ensures |out| <= size && out + buf == old(buf)
      ensures size > 0 && old(buf) != "" ==> |out| > 0
    {
      var n := if size < |buf| then size else |buf|;
      out := buf[..n];
      buf := buf[n..];
    }
  }
}
