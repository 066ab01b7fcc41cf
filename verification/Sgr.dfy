/**
 Rendering a row of cells as text with minimal SGR transitions
 (internal/tui/terminal.go), against an interpreter of the control function
 "select graphic rendition", section 8.3.117 of ECMA-48, with the usual
 extensions for 256 and 24-bit colors, underline styles and underline colors.
 */
module Sgr {
  import opened Text

  // ── Cells ──────────────────────────────────────────────────────────────────

  datatype ColorMode = ColorDefault | ColorANSI16 | ColorANSI256 | ColorTrueColor

  datatype Color = Color(mode: ColorMode, index: nat, name: string)

  datatype Attr = Attr(
    fg: Color, bg: Color, bold: bool, faint: bool, italics: bool, underline: bool, strikethrough: bool,
    reverse: bool, blink: bool, conceal: bool, protectedCell: bool, isoProtected: bool,
    underlineStyle: nat, underlineColor: Color, overline: bool)

  datatype Cell = Cell(data: string, attr: Attr)

  const NO_COLOR := Color(ColorDefault, 0, "")

  const NO_ATTR := Attr(NO_COLOR, NO_COLOR, false, false, false, false, false,
                        false, false, false, false, false, 0, NO_COLOR, false)

  datatype Rgb = Rgb(r: nat, g: nat, b: nat)

  // ── What a terminal shows ──────────────────────────────────────────────────

  datatype Shade = Default | Basic(n: nat) | Indexed(n: nat) | Direct(rgb: Rgb)

  /**
   A terminal's pen. on holds the codes of the renditions that are switched on; underline is 0 when
   off, else the style.
   */
  datatype Pen = Pen(on: set<nat>, fg: Shade, bg: Shade, underlineShade: Shade, underline: nat)

  const PLAIN := Pen({}, Default, Default, Default, 0)

  datatype Shown = Shown(c: char, pen: Pen)

  /** Bold, faint, italics, blink, reverse, conceal, strikethrough, overline. */
  predicate IsRendition(n: nat) { n == 1 || n == 2 || n == 3 || n == 5 || n == 7 || n == 8 || n == 9 || n == 53 }

  /** The rendition a code switches off, or 0. Code 22 switches off two. */
  function SwitchesOff(n: nat): nat {
    if n == 23 || n == 25 || n == 27 || n == 28 || n == 29 then n - 20 else if n == 55 then 53 else 0
  }

  /** One parameter with no sub-parameters. */
  function Code(p: Pen, n: nat): Pen {
    if n == 0 then PLAIN
    else if IsRendition(n) then p.(on := p.on + {n})
    else if n == 6 then p.(on := p.on + {5})
    else if SwitchesOff(n) != 0 then p.(on := p.on - {SwitchesOff(n)})
    else if n == 22 then p.(on := p.on - {1, 2})
    else if n == 4 then p.(underline := 1)
    else if n == 21 then p.(underline := 2)
    else if n == 24 then p.(underline := 0)
    else ColorCode(p, n)
  }

  function ColorCode(p: Pen, n: nat): Pen {
    if 30 <= n <= 37 then p.(fg := Basic(n - 30))
    else if 90 <= n <= 97 then p.(fg := Basic(n - 82))
    else if n == 39 then p.(fg := Default)
    else if 40 <= n <= 47 then p.(bg := Basic(n - 40))
    else if 100 <= n <= 107 then p.(bg := Basic(n - 92))
    else if n == 49 then p.(bg := Default)
    else if n == 59 then p.(underlineShade := Default)
    else p
  }

  /** The codes of section 8.3.117 of ECMA-48 that switch renditions on, with overline as terminals have it. */
  lemma OnCodesAreStandard(p: Pen)
    ensures Code(p, 0) == Pen({}, Default, Default, Default, 0)
    ensures Code(p, 1).on == p.on + {1} && Code(p, 2).on == p.on + {2} && Code(p, 3).on == p.on + {3}
    ensures Code(p, 5).on == Code(p, 6).on == p.on + {5} && Code(p, 7).on == p.on + {7}
    ensures Code(p, 8).on == p.on + {8} && Code(p, 9).on == p.on + {9} && Code(p, 53).on == p.on + {53}
    ensures Code(p, 4) == p.(underline := 1) && Code(p, 21) == p.(underline := 2) && Code(p, 24) == p.(underline := 0)
  {
  }

  /** The codes that switch them off. */
  lemma OffCodesAreStandard(p: Pen)
    ensures Code(p, 22).on == p.on - {1, 2} && Code(p, 23).on == p.on - {3} && Code(p, 25).on == p.on - {5}
    ensures Code(p, 27).on == p.on - {7} && Code(p, 28).on == p.on - {8} && Code(p, 29).on == p.on - {9}
    ensures Code(p, 55).on == p.on - {53}
  {
  }

  /** A rendition code touches the renditions only. */
  lemma RenditionsOnly(p: Pen, n: nat)
    requires n in {1, 2, 3, 5, 6, 7, 8, 9, 22, 23, 25, 27, 28, 29, 53, 55}
    ensures Code(p, n) == p.(on := Code(p, n).on)
  {
  }

  /** The color codes, with the bright ones as terminals have them. */
  lemma ColorCodesAreStandard(p: Pen, k: nat)
    requires k < 8
    ensures Code(p, 30 + k) == p.(fg := Basic(k)) && Code(p, 90 + k) == p.(fg := Basic(8 + k))
    ensures Code(p, 40 + k) == p.(bg := Basic(k)) && Code(p, 100 + k) == p.(bg := Basic(8 + k))
    ensures Code(p, 39) == p.(fg := Default) && Code(p, 49) == p.(bg := Default)
    ensures Code(p, 59) == p.(underlineShade := Default)
  {
  }

  predicate Extends(n: nat) { n == 38 || n == 48 || n == 58 }

  function Painted(p: Pen, n: nat, s: Shade): Pen
    requires Extends(n)
  {
    if n == 38 then p.(fg := s) else if n == 48 then p.(bg := s) else p.(underlineShade := s)
  }

  function One(p: Pen, param: seq<nat>): Pen {
    if |param| == 1 then Code(p, param[0])
    else if |param| == 2 && param[0] == 4 then p.(underline := param[1])
    else p
  }

  predicate IsIndexed(ps: seq<seq<nat>>) { |ps| >= 3 && ps[1] == [5] && |ps[2]| == 1 }
  predicate IsDirect(ps: seq<seq<nat>>) { |ps| >= 5 && ps[1] == [2] && |ps[2]| == 1 && |ps[3]| == 1 && |ps[4]| == 1 }

  /** All parameters of one sequence, in order. */
  function Apply(p: Pen, ps: seq<seq<nat>>): Pen
    decreases |ps|
  {
    if ps == [] then p
    else if |ps[0]| == 1 && Extends(ps[0][0]) && IsIndexed(ps) then
      Apply(Painted(p, ps[0][0], Indexed(ps[2][0])), ps[3..])
    else if |ps[0]| == 1 && Extends(ps[0][0]) && IsDirect(ps) then
      Apply(Painted(p, ps[0][0], Direct(Rgb(ps[2][0], ps[3][0], ps[4][0]))), ps[5..])
    else Apply(One(p, ps[0]), ps[1..])
  }

  function Values(fields: seq<string>): seq<nat> {
    seq(|fields|, i requires 0 <= i < |fields| => Value(fields[i]))
  }

  function Params(text: string): seq<seq<nat>> {
    var fields := Split(text, ';');
    seq(|fields|, i requires 0 <= i < |fields| => Values(Split(fields[i], ':')))
  }

  const ESC := '\U{001b}'

  datatype Screen = Screen(shown: seq<Shown>, pen: Pen)

  /** What a terminal shows for a text, from a pen. */
  function Interpret(s: string, p: Pen): Screen
    decreases |s|
  {
    if s == [] then Screen([], p)
    else if s[0] != ESC then
      var rest := Interpret(s[1..], p);
      Screen([Shown(s[0], p)] + rest.shown, rest.pen)
    else if |s| >= 2 && s[1] == '[' then
      var k := IndexOf(s[2..], 'm');
      if k == |s| - 2 then Screen([], p)
      else Interpret(s[3 + k..], Apply(p, Params(s[2..2 + k])))
    else Interpret(s[1..], p)
  }

  // ── The renderer's transitions ─────────────────────────────────────────────

  const ANSI16_NAME_TO_INDEX: map<string, nat> := map[
    "black" := 0, "red" := 1, "green" := 2, "brown" := 3,
    "blue" := 4, "magenta" := 5, "cyan" := 6, "white" := 7,
    "brightblack" := 8, "brightred" := 9, "brightgreen" := 10, "brightbrown" := 11,
    "brightblue" := 12, "brightmagenta" := 13, "brightcyan" := 14, "brightwhite" := 15]

  const FG_SGR_CODE: map<string, nat> := map[
    "black" := 30, "red" := 31, "green" := 32, "brown" := 33,
    "blue" := 34, "magenta" := 35, "cyan" := 36, "white" := 37,
    "default" := 39,
    "brightblack" := 90, "brightred" := 91, "brightgreen" := 92, "brightbrown" := 93,
    "brightblue" := 94, "brightmagenta" := 95, "brightcyan" := 96, "brightwhite" := 97]

  const BG_SGR_CODE: map<string, nat> := map[
    "black" := 40, "red" := 41, "green" := 42, "brown" := 43,
    "blue" := 44, "magenta" := 45, "cyan" := 46, "white" := 47,
    "default" := 49,
    "brightblack" := 100, "brightred" := 101, "brightgreen" := 102, "brightbrown" := 103,
    "brightblue" := 104, "brightmagenta" := 105, "brightcyan" := 106, "brightwhite" := 107]

  /** The renderer's color tables, and the parser of six-digit color names. */
  datatype Env = Env(hex: string -> Rgb, fg: map<string, nat>, bg: map<string, nat>, palette: map<string, nat>)

  function TeColorAttrs(env: Env, c: Color, isBg: bool): seq<nat> {
    match c.mode
    case ColorDefault => [if isBg then 49 else 39]
    case ColorANSI16 =>
      [if isBg then (if c.name in env.bg then env.bg[c.name] else 49)
       else (if c.name in env.fg then env.fg[c.name] else 39)]
    case ColorANSI256 => [if isBg then 48 else 38, 5, c.index]
    case ColorTrueColor => var v := env.hex(c.name); [if isBg then 48 else 38, 2, v.r, v.g, v.b]
  }

  function TeUnderlineColorAttrs(env: Env, c: Color): seq<nat> {
    match c.mode
    case ColorANSI16 => [58, 5, c.index]
    case ColorANSI256 => [58, 5, c.index]
    case ColorTrueColor => var v := env.hex(c.name); [58, 2, v.r, v.g, v.b]
    case ColorDefault => [59]
  }

  predicate NeedsReset(from: Attr, to: Attr) {
    || (from.bold && !to.bold)
    || (from.faint && !to.faint)
    || (from.blink && !to.blink)
    || (from.conceal && !to.conceal)
  }

  function Join(ns: seq<nat>): string {
    if ns == [] then "" else if |ns| == 1 then Decimal(ns[0]) else Decimal(ns[0]) + [';'] + Join(ns[1..])
  }

  function Sequence(params: string): string { [ESC, '['] + params + ['m'] }

  // ── What an attribute set means ────────────────────────────────────────────

  function NameShade(env: Env, name: string): Shade {
    if name in env.palette then Basic(env.palette[name]) else Default
  }

  function ShadeOf(env: Env, c: Color): Shade {
    match c.mode
    case ColorDefault => Default
    case ColorANSI16 => NameShade(env, c.name)
    case ColorANSI256 => Indexed(c.index)
    case ColorTrueColor => Direct(env.hex(c.name))
  }

  function UnderlineShadeOf(env: Env, c: Color): Shade {
    match c.mode
    case ColorDefault => Default
    case ColorANSI16 => Indexed(c.index)
    case ColorANSI256 => Indexed(c.index)
    case ColorTrueColor => Direct(env.hex(c.name))
  }

  function UnderlineOf(a: Attr): nat {
    if !a.underline then 0 else if a.underlineStyle == 0 then 1 else a.underlineStyle
  }

  function Flag(a: Attr, n: nat): bool {
    if n == 1 then a.bold else if n == 2 then a.faint else if n == 3 then a.italics else if n == 5 then a.blink
    else if n == 7 then a.reverse else if n == 8 then a.conceal else if n == 9 then a.strikethrough
    else n == 53 && a.overline
  }

  function OnOf(a: Attr): set<nat> {
    set n | n in {1, 2, 3, 5, 7, 8, 9, 53} && Flag(a, n)
  }

  /** The pen an attribute set asks for. Unknown color names mean the default color; protection is invisible. */
  function Normalised(env: Env, a: Attr): Pen {
    Pen(OnOf(a), ShadeOf(env, a.fg), ShadeOf(env, a.bg), UnderlineShadeOf(env, a.underlineColor), UnderlineOf(a))
  }

  // ── Parameters ─────────────────────────────────────────────────────────────

  function Wrap(ns: seq<nat>): seq<seq<nat>> { seq(|ns|, i requires 0 <= i < |ns| => [ns[i]]) }

  lemma {:induction false} DigitsOnly(s: string, c: char)
    requires AllDigits(s) && !('0' <= c <= '9')
    ensures c !in s
  {
  }

  lemma DecimalParam(n: nat)
    ensures Values(Split(Decimal(n), ':')) == [n]
  {
    DecimalDigits(n);
    DigitsOnly(Decimal(n), ':');
    SplitWhole(Decimal(n), ':');
    ValueOfDecimal(n);
  }

  lemma ParamsCons(field: string, rest: string)
    requires ';' !in field
    ensures Params(field + [';'] + rest) == [Values(Split(field, ':'))] + Params(rest)
  {
    SplitAtSeparator(field, ';', rest);
  }

  lemma ParamsWhole(field: string)
    requires ';' !in field
    ensures Params(field) == [Values(Split(field, ':'))]
  {
    SplitWhole(field, ';');
  }

  /** Printing parameters and parsing them gives them back. */
  lemma {:induction false} JoinParses(ns: seq<nat>)
    requires ns != []
    ensures Params(Join(ns)) == Wrap(ns)
  {
    DecimalDigits(ns[0]);
    DigitsOnly(Decimal(ns[0]), ';');
    DecimalParam(ns[0]);
    if |ns| == 1 {
      ParamsWhole(Decimal(ns[0]));
    } else {
      ParamsCons(Decimal(ns[0]), Join(ns[1..]));
      JoinParses(ns[1..]);
      assert Wrap(ns) == [[ns[0]]] + Wrap(ns[1..]);
    }
  }

  lemma {:induction false} JoinHasNoFinal(ns: seq<nat>)
    ensures 'm' !in Join(ns)
  {
    if ns != [] {
      DecimalDigits(ns[0]);
      DigitsOnly(Decimal(ns[0]), 'm');
      JoinHasNoFinal(ns[1..]);
    }
  }

  lemma UnderlineParams(style: nat)
    ensures Params("4" + [':'] + Decimal(style)) == [[4, style]]
  {
    var d := Decimal(style);
    DecimalDigits(style);
    DigitsOnly(d, ';');
    DigitsOnly(d, ':');
    ParamsWhole("4" + [':'] + d);
    SplitAtSeparator("4", ':', d);
    SplitWhole(d, ':');
    ValueOfDecimal(style);
    assert Split("4" + [':'] + d, ':') == ["4", d];
    assert Value("4") == 4 by { assert "4"[..0] == []; }
    assert Values(["4", d]) == [4, style];
  }

  // ── Pieces of a parameter list ─────────────────────────────────────────────

  predicate IndexedCodes(ns: seq<nat>) { |ns| >= 3 && ns[1] == 5 }
  predicate DirectCodes(ns: seq<nat>) { |ns| >= 5 && ns[1] == 2 }

  /** Apply on parameters without sub-parameters. */
  function Run(p: Pen, ns: seq<nat>): Pen
    decreases |ns|
  {
    if ns == [] then p
    else if Extends(ns[0]) && IndexedCodes(ns) then Run(Painted(p, ns[0], Indexed(ns[2])), ns[3..])
    else if Extends(ns[0]) && DirectCodes(ns) then Run(Painted(p, ns[0], Direct(Rgb(ns[2], ns[3], ns[4]))), ns[5..])
    else Run(Code(p, ns[0]), ns[1..])
  }

  lemma {:induction false} RunIsApply(p: Pen, ns: seq<nat>)
    ensures Apply(p, Wrap(ns)) == Run(p, ns)
    decreases |ns|
  {
    if ns != [] {
      if Extends(ns[0]) && IndexedCodes(ns) {
        assert Wrap(ns)[3..] == Wrap(ns[3..]);
        RunIsApply(Painted(p, ns[0], Indexed(ns[2])), ns[3..]);
      } else if Extends(ns[0]) && DirectCodes(ns) {
        assert Wrap(ns)[5..] == Wrap(ns[5..]);
        RunIsApply(Painted(p, ns[0], Direct(Rgb(ns[2], ns[3], ns[4]))), ns[5..]);
      } else {
        assert Wrap(ns)[1..] == Wrap(ns[1..]);
        RunIsApply(Code(p, ns[0]), ns[1..]);
      }
    }
  }

  /** No color is cut short at the end. */
  predicate Whole(ns: seq<nat>)
    decreases |ns|
  {
    if ns == [] then true
    else if Extends(ns[0]) then
      if IndexedCodes(ns) then Whole(ns[3..]) else DirectCodes(ns) && Whole(ns[5..])
    else Whole(ns[1..])
  }

  lemma {:induction false} RunSplit(p: Pen, a: seq<nat>, b: seq<nat>)
    requires Whole(a)
    ensures Run(p, a + b) == Run(Run(p, a), b)
    ensures Whole(b) ==> Whole(a + b)
    decreases |a|
  {
    var ns := a + b;
    if a == [] {
      assert ns == b;
    } else if Extends(a[0]) {
      if IndexedCodes(a) {
        assert ns[3..] == a[3..] + b;
        RunSplit(Painted(p, a[0], Indexed(a[2])), a[3..], b);
      } else {
        assert ns[5..] == a[5..] + b;
        RunSplit(Painted(p, a[0], Direct(Rgb(a[2], a[3], a[4]))), a[5..], b);
      }
    } else {
      assert ns[1..] == a[1..] + b;
      RunSplit(Code(p, a[0]), a[1..], b);
    }
  }

  /** These parameters, complete in themselves, move the pen from p to q. */
  predicate Moves(ns: seq<nat>, p: Pen, q: Pen) {
    Effect(ns, p) == Ends(q)
  }

  datatype End = CutShort | Ends(pen: Pen)

  function Effect(ns: seq<nat>, p: Pen): End {
    if Whole(ns) then Ends(Run(p, ns)) else CutShort
  }

  lemma MovesThen(a: seq<nat>, b: seq<nat>, p: Pen, q: Pen, r: Pen)
    requires Moves(a, p, q) && Moves(b, q, r)
    ensures Moves(a + b, p, r)
  {
    RunSplit(p, a, b);
  }

  lemma MovesCode(n: nat, p: Pen)
    requires !Extends(n)
    ensures Moves([n], p, Code(p, n))
  {
    assert [n][1..] == [];
    assert Whole([n]) && Run(p, [n]) == Code(p, n);
  }

  lemma MovesIndexed(n: nat, index: nat, p: Pen)
    requires Extends(n)
    ensures Moves([n, 5, index], p, Painted(p, n, Indexed(index)))
  {
    var ns := [n, 5, index];
    assert ns[3..] == [] && IndexedCodes(ns);
    assert Run(p, ns) == Run(Painted(p, n, Indexed(index)), ns[3..]);
    assert Whole(ns);
  }

  lemma MovesDirect(n: nat, v: Rgb, p: Pen)
    requires Extends(n)
    ensures Moves([n, 2, v.r, v.g, v.b], p, Painted(p, n, Direct(v)))
  {
    var ns := [n, 2, v.r, v.g, v.b];
    assert ns[5..] == [] && !IndexedCodes(ns) && DirectCodes(ns);
    assert Run(p, ns) == Run(Painted(p, n, Direct(v)), ns[5..]);
    assert Whole(ns);
  }

  function FgCode(s: Shade): nat { if !s.Basic? then 39 else if s.n < 8 then 30 + s.n else 82 + s.n }
  function BgCode(s: Shade): nat { if !s.Basic? then 49 else if s.n < 8 then 40 + s.n else 92 + s.n }

  /** Both code tables agree with the palette on every name, known or not. */
  ghost predicate Agree(env: Env) {
    forall name: string {:trigger name in env.palette} {:trigger name in env.fg} {:trigger name in env.bg} ::
      && (name in env.palette ==> env.palette[name] < 16)
      && (if name in env.fg then env.fg[name] else 39) == FgCode(NameShade(env, name))
      && (if name in env.bg then env.bg[name] else 49) == BgCode(NameShade(env, name))
  }

  function Tables(hex: string -> Rgb): Env { Env(hex, FG_SGR_CODE, BG_SGR_CODE, ANSI16_NAME_TO_INDEX) }

  lemma TablesAgree(hex: string -> Rgb)
    ensures Agree(Tables(hex))
  {
    forall name: string
      ensures name in ANSI16_NAME_TO_INDEX ==> ANSI16_NAME_TO_INDEX[name] < 16
      ensures (if name in FG_SGR_CODE then FG_SGR_CODE[name] else 39) == FgCode(NameShade(Tables(hex), name))
      ensures (if name in BG_SGR_CODE then BG_SGR_CODE[name] else 49) == BgCode(NameShade(Tables(hex), name))
    {
      NameAgrees(name);
    }
  }

  lemma NameAgrees(name: string)
    ensures name in ANSI16_NAME_TO_INDEX ==>
              var n := ANSI16_NAME_TO_INDEX[name];
              n < 16 && name in FG_SGR_CODE && name in BG_SGR_CODE
              && FG_SGR_CODE[name] == (if n < 8 then 30 + n else 82 + n)
              && BG_SGR_CODE[name] == (if n < 8 then 40 + n else 92 + n)
    ensures name in FG_SGR_CODE && name !in ANSI16_NAME_TO_INDEX ==> FG_SGR_CODE[name] == 39
    ensures name in BG_SGR_CODE && name !in ANSI16_NAME_TO_INDEX ==> BG_SGR_CODE[name] == 49
  {
  }

  lemma CodePaints(shade: Shade, isBg: bool, p: Pen)
    requires shade.Default? || (shade.Basic? && shade.n < 16)
    ensures var code := if isBg then BgCode(shade) else FgCode(shade);
            !Extends(code) && Code(p, code) == if isBg then p.(bg := shade) else p.(fg := shade)
  {
  }

  lemma MovesNamed(env: Env, c: Color, isBg: bool, p: Pen)
    requires Agree(env) && c.mode.ColorANSI16?
    ensures Moves(TeColorAttrs(env, c, isBg), p,
                  if isBg then p.(bg := ShadeOf(env, c)) else p.(fg := ShadeOf(env, c)))
  {
    var code := TeColorAttrs(env, c, isBg)[0];
    CodePaints(ShadeOf(env, c), isBg, p);
    MovesCode(code, p);
  }

  lemma MovesColor(env: Env, c: Color, isBg: bool, p: Pen)
    requires Agree(env)
    ensures Moves(TeColorAttrs(env, c, isBg), p,
                  if isBg then p.(bg := ShadeOf(env, c)) else p.(fg := ShadeOf(env, c)))
  {
    match c.mode
    case ColorDefault => MovesCode(if isBg then 49 else 39, p);
    case ColorANSI16 => MovesNamed(env, c, isBg, p);
    case ColorANSI256 => MovesIndexed(if isBg then 48 else 38, c.index, p);
    case ColorTrueColor => MovesDirect(if isBg then 48 else 38, env.hex(c.name), p);
  }

  lemma MovesUnderlineColor(env: Env, c: Color, p: Pen)
    ensures Moves(TeUnderlineColorAttrs(env, c), p, p.(underlineShade := UnderlineShadeOf(env, c)))
  {
    match c.mode
    case ColorDefault => MovesCode(59, p);
    case ColorANSI16 => MovesIndexed(58, c.index, p);
    case ColorANSI256 => MovesIndexed(58, c.index, p);
    case ColorTrueColor => MovesDirect(58, env.hex(c.name), p);
  }

  // ── Building a transition ──────────────────────────────────────────────────

  /** Codes n and off switch a rendition on and off; off is 0 when only a reset switches it off alone. */
  predicate IsSwitch(n: nat, off: nat) {
    IsRendition(n) && (off == 0 || SwitchesOff(off) == n)
  }

  function Switched(p: Pen, n: nat, b: bool): Pen {
    p.(on := SetTo(p.on, n, b))
  }

  lemma SwitchCodes(p: Pen, n: nat, off: nat)
    requires IsSwitch(n, off)
    ensures !Extends(n) && Code(p, n) == Switched(p, n, true)
    ensures off != 0 ==> !Extends(off) && Code(p, off) == Switched(p, n, false)
    ensures Switched(p, n, n in p.on) == p
  {
    if n in p.on {
      assert p.on + {n} == p.on;
    } else {
      assert p.on - {n} == p.on;
    }
  }

  /** Appends what it takes to bring one rendition from its old value to its new one. */
  method AppendSwitch(attrs: seq<nat>, n: nat, off: nat, to: bool, from: bool, ghost p0: Pen, ghost p: Pen)
    returns (r: seq<nat>)
    requires Moves(attrs, p0, p) && IsSwitch(n, off) && from == (n in p.on) && (off == 0 ==> to || !from)
    ensures Moves(r, p0, Switched(p, n, to))
  {
    r := attrs;
    SwitchCodes(p, n, off);
    if to && !from {
      MovesCode(n, p);
      MovesThen(attrs, [n], p0, p, Code(p, n));
      r := attrs + [n];
    } else if !to && from {
      MovesCode(off, p);
      MovesThen(attrs, [off], p0, p, Code(p, off));
      r := attrs + [off];
    }
  }

  method AppendColor(env: Env, attrs: seq<nat>, to: Color, from: Color, isBg: bool, ghost p0: Pen, ghost p: Pen)
    returns (r: seq<nat>)
    requires Agree(env)
    requires Moves(attrs, p0, p) && (if isBg then p.bg else p.fg) == ShadeOf(env, from)
    ensures Moves(r, p0, if isBg then p.(bg := ShadeOf(env, to)) else p.(fg := ShadeOf(env, to)))
  {
    r := attrs;
    if to != from {
      ghost var q := if isBg then p.(bg := ShadeOf(env, to)) else p.(fg := ShadeOf(env, to));
      MovesColor(env, to, isBg, p);
      MovesThen(attrs, TeColorAttrs(env, to, isBg), p0, p, q);
      r := attrs + TeColorAttrs(env, to, isBg);
    }
  }

  method AppendUnderlineColor(env: Env, attrs: seq<nat>, to: Color, from: Color, ghost p0: Pen, ghost p: Pen)
    returns (r: seq<nat>)
    requires Moves(attrs, p0, p) && p.underlineShade == UnderlineShadeOf(env, from)
    ensures Moves(r, p0, p.(underlineShade := UnderlineShadeOf(env, to)))
  {
    r := attrs;
    if to != from {
      MovesUnderlineColor(env, to, p);
      MovesThen(attrs, TeUnderlineColorAttrs(env, to), p0, p, p.(underlineShade := UnderlineShadeOf(env, to)));
      r := attrs + TeUnderlineColorAttrs(env, to);
    }
  }

  function WithFlags(p: Pen, to: Attr): Pen {
    p.(on := (OnOf(to) - {53}) + (p.on * {53}))
  }

  function SetTo(on: set<nat>, n: nat, b: bool): set<nat> { if b then on + {n} else on - {n} }

  /** Setting every rendition but overline, one at a time. */
  lemma AllSet(on: set<nat>, to: Attr)
    requires forall n :: n in on ==> IsRendition(n)
    ensures var a := SetTo(SetTo(SetTo(on, 1, to.bold), 2, to.faint), 3, to.italics);
            var b := SetTo(SetTo(a, 5, to.blink), 7, to.reverse);
            SetTo(SetTo(b, 8, to.conceal), 9, to.strikethrough) == (OnOf(to) - {53}) + (on * {53})
  {
  }

  /** Bold, faint and italics, which the renderer sets first. */
  method AppendWeights(attrs: seq<nat>, to: Attr, from: Attr, ghost p0: Pen, ghost p: Pen) returns (r: seq<nat>)
    requires Moves(attrs, p0, p) && !NeedsReset(from, to)
    requires (1 in p.on) == from.bold && (2 in p.on) == from.faint && (3 in p.on) == from.italics
    ensures Moves(r, p0, p.(on := SetTo(SetTo(SetTo(p.on, 1, to.bold), 2, to.faint), 3, to.italics)))
  {
    r := AppendSwitch(attrs, 1, 0, to.bold, from.bold, p0, p);
    r := AppendSwitch(r, 2, 0, to.faint, from.faint, p0, Switched(p, 1, to.bold));
    ghost var q := Switched(Switched(p, 1, to.bold), 2, to.faint);
    r := AppendSwitch(r, 3, 23, to.italics, from.italics, p0, q);
  }

  method AppendFlags(attrs: seq<nat>, to: Attr, from: Attr, ghost p0: Pen, ghost p: Pen) returns (r: seq<nat>)
    requires Moves(attrs, p0, p) && p.on == OnOf(from) && !NeedsReset(from, to)
    ensures Moves(r, p0, WithFlags(p, to))
  {
    AllSet(p.on, to);
    r := AppendWeights(attrs, to, from, p0, p);
    ghost var on := SetTo(SetTo(SetTo(p.on, 1, to.bold), 2, to.faint), 3, to.italics);
    r := AppendEffects(r, to, from, p0, p.(on := on));
  }

  method AppendEffects(attrs: seq<nat>, to: Attr, from: Attr, ghost p0: Pen, ghost p: Pen) returns (r: seq<nat>)
    requires Moves(attrs, p0, p) && !NeedsReset(from, to)
    requires (5 in p.on) == from.blink && (7 in p.on) == from.reverse
    requires (8 in p.on) == from.conceal && (9 in p.on) == from.strikethrough
    ensures var on := SetTo(SetTo(p.on, 5, to.blink), 7, to.reverse);
            Moves(r, p0, p.(on := SetTo(SetTo(on, 8, to.conceal), 9, to.strikethrough)))
  {
    r := AppendSwitch(attrs, 5, 0, to.blink, from.blink, p0, p);
    r := AppendSwitch(r, 7, 27, to.reverse, from.reverse, p0, Switched(p, 5, to.blink));
    ghost var q := Switched(Switched(p, 5, to.blink), 7, to.reverse);
    r := AppendSwitch(r, 8, 0, to.conceal, from.conceal, p0, q);
    r := AppendSwitch(r, 9, 29, to.strikethrough, from.strikethrough, p0, Switched(q, 8, to.conceal));
  }

  function WithColors(env: Env, p: Pen, to: Attr): Pen {
    p.(fg := ShadeOf(env, to.fg), bg := ShadeOf(env, to.bg), underlineShade := UnderlineShadeOf(env, to.underlineColor))
  }

  method AppendColors(env: Env, attrs: seq<nat>, to: Attr, from: Attr, ghost p0: Pen, ghost p: Pen)
    returns (r: seq<nat>)
    requires Agree(env)
    requires Moves(attrs, p0, p) && p.fg == ShadeOf(env, from.fg) && p.bg == ShadeOf(env, from.bg)
    requires p.underlineShade == UnderlineShadeOf(env, from.underlineColor)
    ensures Moves(r, p0, WithColors(env, p, to))
  {
    r := AppendColor(env, attrs, to.fg, from.fg, false, p0, p);
    ghost var q := p.(fg := ShadeOf(env, to.fg));
    r := AppendColor(env, r, to.bg, from.bg, true, p0, q);
    r := AppendUnderlineColor(env, r, to.underlineColor, from.underlineColor, p0, q.(bg := ShadeOf(env, to.bg)));
  }

  // ── Pieces of a text ───────────────────────────────────────────────────────

  /** No control sequence is cut short at the end. */
  predicate Closed(s: string)
    decreases |s|
  {
    if s == [] then true
    else if s[0] != ESC then Closed(s[1..])
    else if |s| >= 2 && s[1] == '[' then
      var k := IndexOf(s[2..], 'm');
      k < |s| - 2 && Closed(s[3 + k..])
    else |s| >= 2 && Closed(s[1..])
  }

  lemma {:induction false} IndexOfAppend(a: string, b: string, c: char)
    ensures IndexOf(a, c) < |a| ==> IndexOf(a + b, c) == IndexOf(a, c)
  {
    if a != [] {
      assert (a + b)[1..] == a[1..] + b;
      IndexOfAppend(a[1..], b, c);
    }
  }

  lemma {:induction false} InterpretSplit(a: string, b: string, p: Pen)
    requires Closed(a)
    ensures var x := Interpret(a, p);
            var y := Interpret(b, x.pen);
            Interpret(a + b, p) == Screen(x.shown + y.shown, y.pen)
    ensures Closed(b) ==> Closed(a + b)
    decreases |a|
  {
    var s := a + b;
    if a == [] {
      assert s == b;
      assert [] + Interpret(b, p).shown == Interpret(b, p).shown;
    } else if a[0] != ESC {
      assert s[1..] == a[1..] + b;
      InterpretSplit(a[1..], b, p);
      SplitShown(a, b, p);
    } else if a[1] == '[' {
      var k := IndexOf(a[2..], 'm');
      assert s[2..] == a[2..] + b;
      IndexOfAppend(a[2..], b, 'm');
      assert s[2..2 + k] == a[2..2 + k] && s[3 + k..] == a[3 + k..] + b;
      InterpretSplit(a[3 + k..], b, Apply(p, Params(a[2..2 + k])));
    } else {
      assert s[1..] == a[1..] + b;
      InterpretSplit(a[1..], b, p);
    }
  }

  lemma SplitShown(a: string, b: string, p: Pen)
    requires a != [] && a[0] != ESC
    ensures Interpret(a, p) == Screen([Shown(a[0], p)] + Interpret(a[1..], p).shown, Interpret(a[1..], p).pen)
    ensures forall t: seq<Shown> :: Interpret(a, p).shown + t == [Shown(a[0], p)] + (Interpret(a[1..], p).shown + t)
  {
  }

  /** This text, complete in itself, shows these characters and leaves this pen. */
  predicate Shows(text: string, p: Pen, shown: seq<Shown>, q: Pen) {
    Outcome(text, p) == Drawn(Screen(shown, q))
  }

  datatype Drawing = Unfinished | Drawn(screen: Screen)

  function Outcome(text: string, p: Pen): Drawing {
    if Closed(text) then Drawn(Interpret(text, p)) else Unfinished
  }

  lemma ShowsNothing(p: Pen)
    ensures Shows("", p, [], p)
  {
  }

  lemma ShowsThen(a: string, b: string, p: Pen, q: Pen, r: Pen, s: seq<Shown>, t: seq<Shown>)
    requires Shows(a, p, s, q) && Shows(b, q, t, r)
    ensures Shows(a + b, p, s + t, r)
  {
    InterpretSplit(a, b, p);
  }

  lemma {:induction false} FinalIndex(params: string, rest: string)
    requires 'm' !in params
    ensures IndexOf(params + ['m'] + rest, 'm') == |params|
  {
    var s := params + ['m'] + rest;
    if params != [] {
      assert s[1..] == params[1..] + ['m'] + rest;
      FinalIndex(params[1..], rest);
    }
  }

  /** A control sequence at the front applies its parameters and leaves the rest. */
  lemma SequenceStep(s: string, params: string, rest: string, p: Pen)
    requires |s| >= 2 && s[0] == ESC && s[1] == '[' && s[2..] == params + ['m'] + rest && 'm' !in params
    ensures Closed(s) == Closed(rest) && Interpret(s, p) == Interpret(rest, Apply(p, Params(params)))
  {
    FinalIndex(params, rest);
    var k := |params|;
    assert s[2..2 + k] == s[2..][..k] == params;
    assert s[3 + k..] == s[2..][1 + k..] == rest;
  }

  lemma SequenceShows(params: string, p: Pen)
    requires 'm' !in params
    ensures Shows(Sequence(params), p, [], Apply(p, Params(params)))
  {
    assert Sequence(params)[2..] == params + ['m'] + "";
    SequenceStep(Sequence(params), params, "", p);
  }

  function Glyphs(text: string, p: Pen): seq<Shown> {
    seq(|text|, i requires 0 <= i < |text| => Shown(text[i], p))
  }

  lemma {:induction false} TextShows(text: string, p: Pen)
    requires ESC !in text
    ensures Shows(text, p, Glyphs(text, p), p)
  {
    if text == "" {
      ShowsNothing(p);
    } else {
      TextShows(text[1..], p);
      assert [text[0]][1..] == [];
      assert Closed([text[0]]) && Interpret([text[0]], p) == Screen([Shown(text[0], p)], p);
      ShowsThen([text[0]], text[1..], p, p, p, [Shown(text[0], p)], Glyphs(text[1..], p));
      assert text == [text[0]] + text[1..];
      assert Glyphs(text, p) == [Shown(text[0], p)] + Glyphs(text[1..], p);
    }
  }

  method ResetStyle(ghost p: Pen) returns (text: string)
    ensures Shows(text, p, [], PLAIN)
  {
    text := Sequence("");
    SequenceShows("", p);
    ParamsWhole("");
    SplitWhole("", ':');
    assert Value("") == 0 && Values([""]) == [0];
    assert Params("") == [[0]];
    assert Apply(p, [[0]]) == PLAIN by { assert [[0]][1..] == []; }
  }

  lemma MovesShows(ns: seq<nat>, p: Pen, q: Pen)
    requires Moves(ns, p, q)
    ensures Shows(if ns == [] then "" else Sequence(Join(ns)), p, [], q)
  {
    if ns == [] {
      ShowsNothing(p);
    } else {
      JoinParses(ns);
      RunIsApply(p, ns);
      JoinHasNoFinal(ns);
      SequenceShows(Join(ns), p);
    }
  }

  lemma CodeShows(n: nat, p: Pen)
    requires !Extends(n)
    ensures Shows(Sequence(Decimal(n)), p, [], Code(p, n))
  {
    MovesCode(n, p);
    MovesShows([n], p, Code(p, n));
  }

  lemma StyleShows(style: nat, p: Pen)
    ensures Shows(Sequence("4" + [':'] + Decimal(style)), p, [], p.(underline := style))
  {
    DecimalDigits(style);
    DigitsOnly(Decimal(style), 'm');
    UnderlineParams(style);
    SequenceShows("4" + [':'] + Decimal(style), p);
    assert Apply(p, [[4, style]]) == p.(underline := style) by { assert [[4, style]][1..] == []; }
  }

  method AppendCode(text: string, n: nat, ghost p0: Pen, ghost p: Pen) returns (r: string)
    requires Shows(text, p0, [], p) && !Extends(n)
    ensures Shows(r, p0, [], Code(p, n))
  {
    CodeShows(n, p);
    ShowsThen(text, Sequence(Decimal(n)), p0, p, Code(p, n), [], []);
    r := text + Sequence(Decimal(n));
  }

  /** Underline on, off and style: outside the list, because only the colon form can say the style. */
  method AppendUnderline(text: string, to: Attr, from: Attr, ghost p0: Pen, ghost p: Pen) returns (r: string)
    requires Shows(text, p0, [], p) && p.underline == UnderlineOf(from)
    ensures Shows(r, p0, [], p.(underline := UnderlineOf(to)))
  {
    r := text;
    if to.underline {
      if !from.underline || to.underlineStyle != from.underlineStyle {
        var style := to.underlineStyle;
        if style == 0 {
          style := 1;
        }
        StyleShows(style, p);
        ShowsThen(text, Sequence("4" + [':'] + Decimal(style)), p0, p, p.(underline := style), [], []);
        r := text + Sequence("4" + [':'] + Decimal(style));
      }
    } else if from.underline {
      r := AppendCode(text, 24, p0, p);
    }
  }

  method AppendOverline(text: string, to: Attr, from: Attr, ghost p0: Pen, ghost p: Pen) returns (r: string)
    requires Shows(text, p0, [], p) && from.overline == (53 in p.on)
    ensures Shows(r, p0, [], Switched(p, 53, to.overline))
  {
    r := text;
    SwitchCodes(p, 53, 55);
    if to.overline && !from.overline {
      r := AppendCode(text, 53, p0, p);
    } else if !to.overline && from.overline {
      r := AppendCode(text, 55, p0, p);
    }
  }

  /** The target, but underlined and overlined like base. */
  function Almost(env: Env, base: Attr, to: Attr): Pen {
    Normalised(env, to).(underline := UnderlineOf(base), on := (OnOf(to) - {53}) + (OnOf(base) * {53}))
  }

  /** The parameters of a transition, except for underline and overline. base is what they leave to change. */
  method TransitionAttrs(env: Env, from: Attr, to: Attr) returns (attrs: seq<nat>, base: Attr)
    requires Agree(env)
    ensures base == if NeedsReset(from, to) then NO_ATTR else from
    ensures Moves(attrs, Normalised(env, from), Almost(env, base, to))
  {
    ghost var p0 := Normalised(env, from);
    attrs, base := [], from;
    if NeedsReset(from, to) {
      MovesCode(0, p0);
      attrs, base := [0], NO_ATTR;
    }
    attrs := AppendAll(env, attrs, to, base, p0);
  }

  method AppendAll(env: Env, attrs: seq<nat>, to: Attr, base: Attr, ghost p0: Pen) returns (r: seq<nat>)
    requires Agree(env)
    requires Moves(attrs, p0, Normalised(env, base)) && !NeedsReset(base, to)
    ensures Moves(r, p0, Almost(env, base, to))
  {
    ghost var p := Normalised(env, base);
    r := AppendFlags(attrs, to, base, p0, p);
    r := AppendColors(env, r, to, base, p0, WithFlags(p, to));
  }

  /**
   The escape text prints nothing and takes the pen from what one attribute set asks for to what the
   other asks for.
   */
  method SgrTransition(env: Env, from: Attr, to: Attr) returns (out: string)
    requires Agree(env)
    ensures Shows(out, Normalised(env, from), [], Normalised(env, to))
  {
    ghost var p0 := Normalised(env, from);
    if to == NO_ATTR {
      out := ResetStyle(p0);
      assert Normalised(env, NO_ATTR) == PLAIN;
      return;
    }
    var attrs, base := TransitionAttrs(env, from, to);
    ghost var q := Almost(env, base, to);
    MovesShows(attrs, p0, q);
    out := "";
    if |attrs| > 0 {
      out := Sequence(Join(attrs));
    }
    out := AppendUnderline(out, to, base, p0, q);
    q := q.(underline := UnderlineOf(to));
    out := AppendOverline(out, to, base, p0, q);
    assert Switched(q, 53, to.overline).on == OnOf(to);
  }

  // ── A row ──────────────────────────────────────────────────────────────────

  datatype Line = Line(
    row: seq<Cell>, width: int, rowIdx: int, cursorRow: int, cursorCol: int,
    showCursor: bool, disconnected: bool, commandMode: bool)

  const DISCONNECTED_ATTR := NO_ATTR.(reverse := true, fg := Color(ColorANSI16, 0, "red"))
  const COMMAND_ATTR := NO_ATTR.(bold := true, reverse := true, fg := Color(ColorANSI16, 0, "brightcyan"))

  /** What is drawn at a column: the row's cell, or a blank past its end, with the cursor on top. */
  function CellAt(l: Line, col: nat): Cell {
    var cell := if col < |l.row| then l.row[col] else Cell(" ", NO_ATTR);
    if !(l.showCursor && l.rowIdx == l.cursorRow && col == l.cursorCol) then cell
    else if l.disconnected then
      Cell("X", DISCONNECTED_ATTR)
    else if l.commandMode then
      Cell("?", COMMAND_ATTR)
    else cell.(attr := cell.attr.(reverse := !cell.attr.reverse))
  }

  predicate Blank(data: string) { data == "" || data == ['\0'] }

  function Advance(widthOf: string -> int, data: string): (n: nat)
    ensures n >= 1
  {
    if Blank(data) || widthOf(data) < 1 then 1 else widthOf(data)
  }

  function Glyph(cell: Cell): string { if Blank(cell.data) then " " else cell.data }

  function DrawnCell(env: Env, cell: Cell): seq<Shown> { Glyphs(Glyph(cell), Normalised(env, cell.attr)) }

  /** Every visited cell from a column on, each character with exactly the pen its attributes ask for. */
  function Expected(env: Env, widthOf: string -> int, l: Line, col: nat): seq<Shown>
    decreases l.width - col
  {
    if col >= l.width then []
    else DrawnCell(env, CellAt(l, col)) + Expected(env, widthOf, l, col + Advance(widthOf, CellAt(l, col).data))
  }

  lemma ExpectedStep(env: Env, widthOf: string -> int, l: Line, col: nat, shown: seq<Shown>)
    requires col < l.width
    ensures var cell := CellAt(l, col);
            shown + DrawnCell(env, cell) + Expected(env, widthOf, l, col + Advance(widthOf, cell.data))
            == shown + Expected(env, widthOf, l, col)
  {
  }

  /** The text of every visited cell from a column on. */
  function TextFrom(widthOf: string -> int, l: Line, col: nat): string
    decreases l.width - col
  {
    if col >= l.width then ""
    else Glyph(CellAt(l, col)) + TextFrom(widthOf, l, col + Advance(widthOf, CellAt(l, col).data))
  }

  predicate SameText(shown: seq<Shown>, text: string) {
    |shown| == |text| && forall i :: 0 <= i < |text| ==> shown[i].c == text[i]
  }

  lemma SameTextThen(a: seq<Shown>, x: string, b: seq<Shown>, y: string)
    requires SameText(a, x) && SameText(b, y)
    ensures SameText(a + b, x + y)
  {
  }

  lemma {:induction false} ExpectedText(env: Env, widthOf: string -> int, l: Line, col: nat)
    ensures SameText(Expected(env, widthOf, l, col), TextFrom(widthOf, l, col))
    decreases l.width - col
  {
    if col < l.width {
      var cell := CellAt(l, col);
      var next := col + Advance(widthOf, cell.data);
      ExpectedText(env, widthOf, l, next);
      SameTextThen(DrawnCell(env, cell), Glyph(cell), Expected(env, widthOf, l, next), TextFrom(widthOf, l, next));
    }
  }

  /** An interpreter never shows an escape character. */
  lemma {:induction false} ShowsNoEsc(text: string, p: Pen)
    ensures forall i :: 0 <= i < |Interpret(text, p).shown| ==> Interpret(text, p).shown[i].c != ESC
    decreases |text|
  {
    if text != [] {
      if text[0] != ESC {
        ShowsNoEsc(text[1..], p);
      } else if |text| >= 2 && text[1] == '[' {
        var k := IndexOf(text[2..], 'm');
        if k < |text| - 2 {
          ShowsNoEsc(text[3 + k..], Apply(p, Params(text[2..2 + k])));
        }
      } else {
        ShowsNoEsc(text[1..], p);
      }
    }
  }

  /** One cell: move the pen if its attributes differ from the current ones, then write it. */
  method RenderCell(env: Env, sb: string, cur: Attr, attr: Attr, ch: string, ghost shown: seq<Shown>)
    returns (r: string)
    requires Agree(env)
    ensures Shows(sb, PLAIN, shown, Normalised(env, cur)) && ESC !in ch ==>
              Shows(r, PLAIN, shown + Glyphs(ch, Normalised(env, attr)), Normalised(env, attr))
  {
    var transition := "";
    if attr != cur {
      transition := SgrTransition(env, cur, attr);
    } else {
      ShowsNothing(Normalised(env, cur));
    }
    CellShows(sb, transition, ch, Normalised(env, cur), Normalised(env, attr), shown);
    r := sb + transition + ch;
  }

  lemma CellShows(sb: string, transition: string, ch: string, p: Pen, q: Pen, shown: seq<Shown>)
    requires Shows(transition, p, [], q)
    ensures Shows(sb, PLAIN, shown, p) && ESC !in ch ==> Shows(sb + transition + ch, PLAIN, shown + Glyphs(ch, q), q)
  {
    if Shows(sb, PLAIN, shown, p) && ESC !in ch {
      ShowsThen(sb, transition, PLAIN, p, q, shown, []);
      assert shown + [] == shown;
      TextShows(ch, q);
      ShowsThen(sb + transition, ch, PLAIN, q, q, shown, Glyphs(ch, q));
    }
  }

  lemma StartsPlain(env: Env)
    ensures Shows("", PLAIN, [], Normalised(env, NO_ATTR))
  {
    ShowsNothing(PLAIN);
  }

  /** The cell drawn at a column, as text, and the next column: past the ones a wide glyph covers. */
  method Visit(env: Env, widthOf: string -> int, l: Line, col: nat, ghost shown: seq<Shown>)
    returns (attr: Attr, ch: string, next: nat)
    requires col < l.width
    ensures next > col && TextFrom(widthOf, l, col) == ch + TextFrom(widthOf, l, next)
    ensures shown + Glyphs(ch, Normalised(env, attr)) + Expected(env, widthOf, l, next) ==
      shown + Expected(env, widthOf, l, col)
  {
    var cell := CellAt(l, col);
    attr, ch := cell.attr, Glyph(cell);
    ExpectedStep(env, widthOf, l, col, shown);
    next := col + Advance(widthOf, cell.data);
  }

  method RenderRow(env: Env, widthOf: string -> int, l: Line) returns (sb: string)
    requires Agree(env)
    ensures ESC !in TextFrom(widthOf, l, 0) ==> Shows(sb, PLAIN, Expected(env, widthOf, l, 0), PLAIN)
  {
    sb := "";
    var cur := NO_ATTR;
    var col := 0;
    ghost var shown: seq<Shown> := [];
    ghost var clean := ESC !in TextFrom(widthOf, l, 0);
    StartsPlain(env);
    while col < l.width
      invariant clean ==> Shows(sb, PLAIN, shown, Normalised(env, cur)) && ESC !in TextFrom(widthOf, l, col)
      invariant shown + Expected(env, widthOf, l, col) == Expected(env, widthOf, l, 0)
      decreases l.width - col
    {
      var attr, ch, next := Visit(env, widthOf, l, col, shown);
      sb := RenderCell(env, sb, cur, attr, ch, shown);
      shown := shown + Glyphs(ch, Normalised(env, attr));
      cur, col := attr, next;
    }
    assert shown + [] == shown;
    sb := FinishRow(env, sb, cur, shown);
  }

  /** Leaves the terminal in its default state. */
  method FinishRow(env: Env, sb: string, cur: Attr, ghost shown: seq<Shown>) returns (r: string)
    ensures Shows(sb, PLAIN, shown, Normalised(env, cur)) ==> Shows(r, PLAIN, shown, PLAIN)
  {
    r := sb;
    if cur != NO_ATTR {
      var reset := ResetStyle(Normalised(env, cur));
      ResetShows(sb, reset, Normalised(env, cur), shown);
      r := sb + reset;
    }
  }

  lemma ResetShows(sb: string, reset: string, p: Pen, shown: seq<Shown>)
    requires Shows(reset, p, [], PLAIN)
    ensures Shows(sb, PLAIN, shown, p) ==> Shows(sb + reset, PLAIN, shown, PLAIN)
  {
    if Shows(sb, PLAIN, shown, p) {
      ShowsThen(sb, reset, PLAIN, p, PLAIN, shown, []);
      assert shown + [] == shown;
    }
  }

  // ── What a row shows, cell by cell ─────────────────────────────────────────

  /** Each attribute of a cell is what the pen shows for it. */
  lemma AttributesAreShown(env: Env, a: Attr)
    ensures var p := Normalised(env, a);
            && (1 in p.on <==> a.bold) && (2 in p.on <==> a.faint) && (3 in p.on <==> a.italics)
            && (5 in p.on <==> a.blink) && (7 in p.on <==> a.reverse) && (8 in p.on <==> a.conceal)
            && (9 in p.on <==> a.strikethrough) && (53 in p.on <==> a.overline)
            && (!a.underline ==> p.underline == 0)
            && (a.underline && a.underlineStyle == 0 ==> p.underline == 1)
            && (a.underline && a.underlineStyle > 0 ==> p.underline == a.underlineStyle)
            && (a.fg.mode.ColorDefault? ==> p.fg == Default) && (a.bg.mode.ColorDefault? ==> p.bg == Default)
            && (a.fg.mode.ColorANSI256? ==> p.fg == Indexed(a.fg.index))
            && (a.bg.mode.ColorANSI256? ==> p.bg == Indexed(a.bg.index))
            && (a.fg.mode.ColorTrueColor? ==> p.fg == Direct(env.hex(a.fg.name)))
            && (a.bg.mode.ColorTrueColor? ==> p.bg == Direct(env.hex(a.bg.name)))
            && (a.fg.mode.ColorANSI16? && a.fg.name in env.palette ==> p.fg == Basic(env.palette[a.fg.name]))
            && (a.bg.mode.ColorANSI16? && a.bg.name in env.palette ==> p.bg == Basic(env.palette[a.bg.name]))
  {
  }

  /** The cell of a row at a column, without any cursor: a blank past the end. */
  function RowCell(l: Line, col: nat): Cell {
    if col < |l.row| then l.row[col] else Cell(" ", NO_ATTR)
  }

  /** What the columns from col on show when there is no cursor. */
  function Plain(env: Env, widthOf: string -> int, l: Line, col: nat): seq<Shown>
    decreases l.width - col
  {
    if col >= l.width then []
    else
      var cell := RowCell(l, col);
      Glyphs(Glyph(cell), Normalised(env, cell.attr)) + Plain(env, widthOf, l, col + Advance(widthOf, cell.data))
  }

  /** The part of that before column target. */
  function PlainUpTo(env: Env, widthOf: string -> int, l: Line, col: nat, target: nat): seq<Shown>
    decreases target - col
  {
    if col >= target then []
    else
      var cell := RowCell(l, col);
      Glyphs(Glyph(cell), Normalised(env, cell.attr)) +
        PlainUpTo(env, widthOf, l, col + Advance(widthOf, cell.data), target)
  }

  /** Column target is visited: no wide glyph before it covers it. */
  predicate Lands(widthOf: string -> int, l: Line, col: nat, target: nat)
    decreases target - col
  {
    if col >= target then col == target
    else Lands(widthOf, l, col + Advance(widthOf, RowCell(l, col).data), target)
  }

  /** The cursor is on this line, at a column that is visited. */
  predicate CursorOn(widthOf: string -> int, l: Line) {
    && l.showCursor && l.rowIdx == l.cursorRow && 0 <= l.cursorCol < l.width
    && Lands(widthOf, l, 0, l.cursorCol)
  }

  lemma {:induction false} PlainSplits(env: Env, widthOf: string -> int, l: Line, col: nat, target: nat)
    requires col <= target && Lands(widthOf, l, col, target) && target <= l.width
    ensures Plain(env, widthOf, l, col) == PlainUpTo(env, widthOf, l, col, target) + Plain(env, widthOf, l, target)
    decreases target - col
  {
    if col < target {
      PlainSplits(env, widthOf, l, col + Advance(widthOf, RowCell(l, col).data), target);
    }
  }

  lemma AppendThen<T>(x: seq<T>, y: seq<T>, z: seq<T>)
    ensures x + (y + z) == (x + y) + z
  {
  }

  /** No column from col on is the cursor's: it is before col, past the row, in another row, or under a wide glyph. */
  predicate PastCursor(widthOf: string -> int, l: Line, col: nat) {
    !(l.showCursor && l.rowIdx == l.cursorRow) || l.cursorCol < col || l.cursorCol >= l.width
    || !Lands(widthOf, l, col, if l.cursorCol < 0 then 0 else l.cursorCol)
  }

  lemma PastCursorStep(widthOf: string -> int, l: Line, col: nat)
    requires PastCursor(widthOf, l, col) && col < l.width
    ensures CellAt(l, col) == RowCell(l, col)
    ensures PastCursor(widthOf, l, col + Advance(widthOf, RowCell(l, col).data))
  {
  }

  /** There the row shows its own cells. */
  lemma {:induction false} NoCursorAhead(env: Env, widthOf: string -> int, l: Line, col: nat)
    requires PastCursor(widthOf, l, col)
    ensures Expected(env, widthOf, l, col) == Plain(env, widthOf, l, col)
    decreases l.width - col
  {
    if col < l.width {
      PastCursorStep(widthOf, l, col);
      NoCursorAhead(env, widthOf, l, col + Advance(widthOf, RowCell(l, col).data));
    }
  }

  /** Up to the cursor's column the row shows its own cells. */
  lemma {:induction false} UpToCursor(env: Env, widthOf: string -> int, l: Line, col: nat)
    requires col <= l.cursorCol < l.width && Lands(widthOf, l, col, l.cursorCol)
    ensures Expected(env, widthOf, l, col) ==
      PlainUpTo(env, widthOf, l, col, l.cursorCol) + Expected(env, widthOf, l, l.cursorCol)
    decreases l.width - col
  {
    if col < l.cursorCol {
      var cell := RowCell(l, col);
      assert CellAt(l, col) == cell;
      var next := col + Advance(widthOf, cell.data);
      UpToCursor(env, widthOf, l, next);
      AppendThen(Glyphs(Glyph(cell), Normalised(env, cell.attr)), PlainUpTo(env, widthOf, l, next, l.cursorCol),
        Expected(env, widthOf, l, l.cursorCol));
    }
  }

  /** One visited column, and the rest of the row. */
  lemma ExpectedFrom(env: Env, widthOf: string -> int, l: Line, k: nat, data: string, pen: Pen)
    requires k < l.width && CellAt(l, k).data == data && Normalised(env, CellAt(l, k).attr) == pen
    ensures Expected(env, widthOf, l, k) ==
      Glyphs(if Blank(data) then " " else data, pen) + Expected(env, widthOf, l, k + Advance(widthOf, data))
  {
  }

  lemma GlyphOne(c: char, pen: Pen)
    ensures Glyphs([c], pen) == [Shown(c, pen)]
  {
  }

  /** What the cursor shows, and after it the row's own cells. */
  lemma CursorThen(env: Env, widthOf: string -> int, l: Line, data: string, pen: Pen)
    requires CursorOn(widthOf, l)
    requires CellAt(l, l.cursorCol).data == data && Normalised(env, CellAt(l, l.cursorCol).attr) == pen
    ensures Expected(env, widthOf, l, l.cursorCol) ==
              Glyphs(if Blank(data) then " " else data, pen) +
                Plain(env, widthOf, l, l.cursorCol + Advance(widthOf, data))
  {
    ExpectedFrom(env, widthOf, l, l.cursorCol, data, pen);
    NoCursorAhead(env, widthOf, l, l.cursorCol + Advance(widthOf, data));
  }

  lemma DisconnectedCursor(env: Env, widthOf: string -> int, l: Line, pen: Pen, data: string)
    requires CursorOn(widthOf, l) && l.disconnected && Normalised(env, DISCONNECTED_ATTR) == pen && data == "X"
    ensures Expected(env, widthOf, l, l.cursorCol) ==
              [Shown('X', pen)] + Plain(env, widthOf, l, l.cursorCol + Advance(widthOf, data))
  {
    CursorThen(env, widthOf, l, data, pen);
    GlyphOne('X', pen);
  }

  lemma CommandCursor(env: Env, widthOf: string -> int, l: Line, pen: Pen, data: string)
    requires CursorOn(widthOf, l) && !l.disconnected && l.commandMode && Normalised(env, COMMAND_ATTR) == pen
    requires data == "?"
    ensures Expected(env, widthOf, l, l.cursorCol) ==
              [Shown('?', pen)] + Plain(env, widthOf, l, l.cursorCol + Advance(widthOf, data))
  {
    CursorThen(env, widthOf, l, data, pen);
    GlyphOne('?', pen);
  }

  lemma PlainCursor(env: Env, widthOf: string -> int, l: Line, cell: Cell, pen: Pen)
    requires CursorOn(widthOf, l) && !l.disconnected && !l.commandMode && cell == RowCell(l, l.cursorCol)
    requires Normalised(env, cell.attr.(reverse := !cell.attr.reverse)) == pen
    ensures Expected(env, widthOf, l, l.cursorCol) ==
              Glyphs(Glyph(cell), pen) + Plain(env, widthOf, l, l.cursorCol + Advance(widthOf, cell.data))
  {
    CursorThen(env, widthOf, l, cell.data, pen);
  }

  lemma DisconnectedPen(hex: string -> Rgb)
    ensures Normalised(Tables(hex), DISCONNECTED_ATTR) == Pen({7}, Basic(1), Default, Default, 0)
  {
    assert OnOf(DISCONNECTED_ATTR) == {7};
  }

  lemma CommandPen(hex: string -> Rgb)
    ensures Normalised(Tables(hex), COMMAND_ATTR) == Pen({1, 7}, Basic(14), Default, Default, 0)
  {
    assert OnOf(COMMAND_ATTR) == {1, 7};
  }

  lemma TogglePen(env: Env, a: Attr)
    ensures var pen := Normalised(env, a);
            Normalised(env, a.(reverse := !a.reverse)) == pen.(on := if a.reverse then pen.on - {7} else pen.on + {7})
  {
    assert OnOf(a.(reverse := !a.reverse)) == if a.reverse then OnOf(a) - {7} else OnOf(a) + {7};
  }

  lemma AtDisconnected(hex: string -> Rgb, widthOf: string -> int, l: Line, env: Env, red: Pen)
    requires CursorOn(widthOf, l) && l.disconnected && env == Tables(hex)
    requires red == Pen({7}, Basic(1), Default, Default, 0)
    ensures Expected(env, widthOf, l, l.cursorCol) ==
              [Shown('X', red)] + Plain(env, widthOf, l, l.cursorCol + Advance(widthOf, "X"))
  {
    DisconnectedPen(hex);
    DisconnectedCursor(env, widthOf, l, red, "X");
  }

  lemma AtCommand(hex: string -> Rgb, widthOf: string -> int, l: Line, env: Env, cyan: Pen)
    requires CursorOn(widthOf, l) && !l.disconnected && l.commandMode && env == Tables(hex)
    requires cyan == Pen({1, 7}, Basic(14), Default, Default, 0)
    ensures Expected(env, widthOf, l, l.cursorCol) ==
              [Shown('?', cyan)] + Plain(env, widthOf, l, l.cursorCol + Advance(widthOf, "?"))
  {
    CommandPen(hex);
    CommandCursor(env, widthOf, l, cyan, "?");
  }

  /** What stands at the cursor, and the row after it. */
  lemma AtCursor(hex: string -> Rgb, widthOf: string -> int, l: Line)
    requires CursorOn(widthOf, l)
    ensures var env, k, cell := Tables(hex), l.cursorCol, RowCell(l, l.cursorCol);
            var red, cyan := Pen({7}, Basic(1), Default, Default, 0), Pen({1, 7}, Basic(14), Default, Default, 0);
            var pen := Normalised(env, cell.attr);
            var toggled := pen.(on := if cell.attr.reverse then pen.on - {7} else pen.on + {7});
            Expected(env, widthOf, l, k) ==
              if l.disconnected then [Shown('X', red)] + Plain(env, widthOf, l, k + Advance(widthOf, "X"))
              else if l.commandMode then [Shown('?', cyan)] + Plain(env, widthOf, l, k + Advance(widthOf, "?"))
              else Glyphs(Glyph(cell), toggled) + Plain(env, widthOf, l, k + Advance(widthOf, cell.data))
  {
    var env, cell := Tables(hex), RowCell(l, l.cursorCol);
    if l.disconnected {
      AtDisconnected(hex, widthOf, l, env, Pen({7}, Basic(1), Default, Default, 0));
    } else if l.commandMode {
      AtCommand(hex, widthOf, l, env, Pen({1, 7}, Basic(14), Default, Default, 0));
    } else {
      TogglePen(env, cell.attr);
      PlainCursor(env, widthOf, l, cell, Normalised(env, cell.attr.(reverse := !cell.attr.reverse)));
    }
  }

  /** A line without a cursor, or with one hidden under a wide glyph, shows just its cells. */
  lemma NoCursor(env: Env, widthOf: string -> int, l: Line)
    requires !CursorOn(widthOf, l)
    ensures Expected(env, widthOf, l, 0) == Plain(env, widthOf, l, 0)
  {
    NoCursorAhead(env, widthOf, l, 0);
  }

  lemma WithCursor(hex: string -> Rgb, widthOf: string -> int, l: Line)
    requires CursorOn(widthOf, l)
    ensures Expected(Tables(hex), widthOf, l, 0) ==
      PlainUpTo(Tables(hex), widthOf, l, 0, l.cursorCol) + Expected(Tables(hex), widthOf, l, l.cursorCol)
  {
    UpToCursor(Tables(hex), widthOf, l, 0);
  }

  /** A cell without text, or holding NUL, is a space one column wide; any other its text, at least one column wide. */
  lemma GlyphAndWidth(widthOf: string -> int, cell: Cell)
    ensures cell.data == "" || cell.data == ['\0'] ==> Glyph(cell) == " " && Advance(widthOf, cell.data) == 1
    ensures cell.data != "" && cell.data != ['\0'] ==>
              && Glyph(cell) == cell.data
              && Advance(widthOf, cell.data) >= 1 && Advance(widthOf, cell.data) >= widthOf(cell.data)
              && (widthOf(cell.data) >= 1 ==> Advance(widthOf, cell.data) == widthOf(cell.data))
  {
  }

  /** Every cell holds one character of width one, and a space is no wider. */
  predicate Narrow(widthOf: string -> int, l: Line) {
    && (forall i :: 0 <= i < |l.row| ==> |l.row[i].data| == 1 && l.row[i].data != ['\0'] && widthOf(l.row[i].data) == 1)
    && widthOf(" ") <= 1
  }

  function ShownAt(env: Env, l: Line, i: nat): Shown {
    var cell := RowCell(l, i);
    Shown(if cell.data == "" then ' ' else cell.data[0], Normalised(env, cell.attr))
  }

  function Cells(env: Env, l: Line, col: nat): seq<Shown>
    decreases l.width - col
  {
    if col >= l.width then [] else [ShownAt(env, l, col)] + Cells(env, l, col + 1)
  }

  lemma {:induction false} CellsIndex(env: Env, l: Line, col: nat, i: nat)
    requires col <= i < l.width
    ensures |Cells(env, l, col)| == l.width - col && Cells(env, l, col)[i - col] == ShownAt(env, l, i)
    decreases l.width - col
  {
    if col < i {
      CellsIndex(env, l, col + 1, i);
    } else if col + 1 < l.width {
      CellsIndex(env, l, col + 1, col + 1);
    }
  }

  lemma {:induction false} NarrowCells(env: Env, widthOf: string -> int, l: Line, col: nat)
    requires Narrow(widthOf, l)
    ensures Plain(env, widthOf, l, col) == Cells(env, l, col)
    decreases l.width - col
  {
    if col < l.width {
      var cell := RowCell(l, col);
      NarrowCells(env, widthOf, l, col + 1);
      GlyphAndWidth(widthOf, cell);
      assert Advance(widthOf, cell.data) == 1 && Glyph(cell) == [cell.data[0]];
      GlyphOne(cell.data[0], Normalised(env, cell.attr));
    }
  }

  /** A narrow row shows exactly its data and attributes, one cell to a column, and plain spaces past its end. */
  lemma NarrowRow(env: Env, widthOf: string -> int, l: Line)
    requires Narrow(widthOf, l)
    ensures var shown := Plain(env, widthOf, l, 0);
            && |shown| == (if l.width < 0 then 0 else l.width)
            && forall i :: 0 <= i < |shown| ==>
                 shown[i] == if i < |l.row| then Shown(l.row[i].data[0], Normalised(env, l.row[i].attr))
                             else Shown(' ', Normalised(env, NO_ATTR))
  {
    NarrowCells(env, widthOf, l, 0);
    forall i | 0 <= i < l.width
      ensures |Cells(env, l, 0)| == l.width && Cells(env, l, 0)[i] == ShownAt(env, l, i)
    {
      CellsIndex(env, l, 0, i);
    }
  }

  /** Text with an escape character in it is never shown as it is. */
  lemma EscSpoils(env: Env, widthOf: string -> int, l: Line, text: string)
    ensures ESC in TextFrom(widthOf, l, 0) ==> Interpret(text, PLAIN).shown != Expected(env, widthOf, l, 0)
  {
    ExpectedText(env, widthOf, l, 0);
    ShowsNoEsc(text, PLAIN);
  }

  /**
   Main result: interpreting the emitted row shows every visited cell with
   exactly its own attributes, the cursor included, and leaves the terminal in
   its default state, exactly when no visited cell's text holds an escape
   character: the renderer writes cell text as it is. The cursor reverses its
   cell, or stands as a red X when disconnected and a bright cyan question mark
   in command mode; every column before and after it shows what it shows without
   a cursor.
   */
  method RenderCellLine(hex: string -> Rgb, widthOf: string -> int, l: Line) returns (sb: string)
    ensures Interpret(sb, PLAIN) == Screen(Expected(Tables(hex), widthOf, l, 0), PLAIN) <==>
      ESC !in TextFrom(widthOf, l, 0)
    ensures ESC !in TextFrom(widthOf, l, 0) && !CursorOn(widthOf, l) ==>
              Interpret(sb, PLAIN).shown == Plain(Tables(hex), widthOf, l, 0)
    ensures ESC !in TextFrom(widthOf, l, 0) && CursorOn(widthOf, l) ==>
              var env, k, cell := Tables(hex), l.cursorCol, RowCell(l, l.cursorCol);
              var red, cyan := Pen({7}, Basic(1), Default, Default, 0), Pen({1, 7}, Basic(14), Default, Default, 0);
              var pen := Normalised(env, cell.attr);
              var toggled := pen.(on := if cell.attr.reverse then pen.on - {7} else pen.on + {7});
              Interpret(sb, PLAIN).shown == PlainUpTo(env, widthOf, l, 0, k) + (
                if l.disconnected then [Shown('X', red)] + Plain(env, widthOf, l, k + Advance(widthOf, "X"))
                else if l.commandMode then [Shown('?', cyan)] + Plain(env, widthOf, l, k + Advance(widthOf, "?"))
                else Glyphs(Glyph(cell), toggled) + Plain(env, widthOf, l, k + Advance(widthOf, cell.data)))
  {
    TablesAgree(hex);
    sb := RenderRow(Tables(hex), widthOf, l);
    EscSpoils(Tables(hex), widthOf, l, sb);
    if CursorOn(widthOf, l) {
      WithCursor(hex, widthOf, l);
      AtCursor(hex, widthOf, l);
    } else {
      NoCursor(Tables(hex), widthOf, l);
    }
  }
}
