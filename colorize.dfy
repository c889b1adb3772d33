/**
  Terminal colours as the runtime writes them: each colour value is streamed as
  an SGR ("select graphic rendition") control sequence, section 8.3.117 of
  ECMA-48: CSI (ESC '['), numeric parameters separated by ';', then 'm'.
  The 30-37/40-47 codes are ECMA-48's; 90-97/100-107 are the aixterm "bright"
  extension, and `38;5;n`/`48;5;n` the xterm 256-colour extension.
 */
module Colorize {
  import opened Text

  const Esc: char := '\U{1b}'

  /** The Control Sequence Introducer, written "\033[" in the source. */
  const Csi: string := [Esc, '[']

  type Byte = n: int | 0 <= n < 256

  // ---------------------------------------------------------------------------
  // The reference form of an SGR sequence, and its inverse

  /** The parameters of a control sequence in decimal, separated by ';'. */
  function Params(ps: seq<nat>): string
  {
    if |ps| == 0 then ""
    else if |ps| == 1 then Decimal(ps[0])
    else Decimal(ps[0]) + ";" + Params(ps[1..])
  }

  /** The SGR control sequence with the given parameters. */
  function Sgr(ps: seq<nat>): string
  {
    Csi + Params(ps) + "m"
  }

  /** Reads back the parameters of `Params`. */
  function ParseParams(t: string): Option<seq<nat>>
    decreases |t|
  {
    match SplitAtFirst(t, ';')
    case None =>
      if |t| > 0 && AllDigits(t) then Some([ParseDecimal(t)]) else None
    case Some((first, from)) =>
      if |first| > 0 && AllDigits(first) then
        match ParseParams(from[1..])
        case None => None
        case Some(rest) => Some([ParseDecimal(first)] + rest)
      else None
  }

  /** Reads back the parameters of an SGR control sequence. */
  function ParseSgr(s: string): Option<seq<nat>>
  {
    if |s| >= 3 && s[..2] == Csi && s[|s| - 1] == 'm' then ParseParams(s[2..|s| - 1]) else None
  }

  /** ESC '[', then only digits and ';', then the final 'm'. */
  predicate IsSgrShape(s: string)
  {
    && |s| >= 3 && s[..2] == Csi && s[|s| - 1] == 'm'
    && forall i :: 2 <= i < |s| - 1 ==> IsDigit(s[i]) || s[i] == ';'
  }

  /** A decimal never holds the parameter separator. */
  lemma DecimalHasNoSeparator(n: nat)
    ensures ';' !in Decimal(n)
  {
    var d := Decimal(n);
    forall i | 0 <= i < |d| ensures d[i] != ';' { assert IsDigit(d[i]); }
  }

  /** A lone parameter reads back as itself. */
  lemma LastParamRoundTrip(n: nat)
    ensures ParseParams(Decimal(n)) == Some([n])
  {
    DecimalRoundTrip(n);
    DecimalHasNoSeparator(n);
  }

  /** A parameter followed by ';' is read off the front, and the rest is read on. */
  lemma FirstParamStep(n: nat, t: string)
    ensures ParseParams(Decimal(n) + (";" + t))
         == match ParseParams(t) case None => None case Some(rest) => Some([n] + rest)
  {
    var d, from := Decimal(n), ";" + t;
    DecimalRoundTrip(n);
    DecimalHasNoSeparator(n);
    SplitAtFirstOf(d, from, ';');
    assert from[1..] == t;
  }

  lemma {:induction false} ParamsRoundTrip(ps: seq<nat>)
    requires |ps| > 0
    ensures ParseParams(Params(ps)) == Some(ps)
  {
    if |ps| == 1 {
      LastParamRoundTrip(ps[0]);
      assert [ps[0]] == ps;
    } else {
      var rest := ps[1..];
      ParamsRoundTrip(rest);
      FirstParamStep(ps[0], Params(rest));
      assert Params(ps) == Decimal(ps[0]) + (";" + Params(rest));
      assert [ps[0]] + rest == ps;
    }
  }

  /** An SGR sequence with at least one parameter can be read back. */
  lemma SgrRoundTrip(ps: seq<nat>)
    requires |ps| > 0
    ensures ParseSgr(Sgr(ps)) == Some(ps)
  {
    var s := Sgr(ps);
    assert s[2..|s| - 1] == Params(ps);
    ParamsRoundTrip(ps);
  }

  lemma {:induction false} ParamsShape(ps: seq<nat>)
    ensures forall i :: 0 <= i < |Params(ps)| ==> IsDigit(Params(ps)[i]) || Params(ps)[i] == ';'
  {
    if |ps| > 1 {
      ParamsShape(ps[1..]);
    }
  }

  lemma SgrShape(ps: seq<nat>)
    ensures IsSgrShape(Sgr(ps))
  {
    var s := Sgr(ps);
    ParamsShape(ps);
    assert forall i :: 2 <= i < |s| - 1 ==> s[i] == Params(ps)[i - 2];
  }

  /** Distinct parameter lists give distinct SGR sequences. */
  lemma SgrInjective(ps: seq<nat>, qs: seq<nat>)
    requires |ps| > 0 && |qs| > 0
    ensures Sgr(ps) == Sgr(qs) ==> ps == qs
  {
    SgrRoundTrip(ps);
    SgrRoundTrip(qs);
  }

  // ---------------------------------------------------------------------------
  // colorize::standart: the fixed colour tables

  /**
    The colours named by `standart::foreground` and `standart::background`; both
    enumerations list the same fifteen names (there is no bright blue).
   */
  datatype Hue =
    | Black | Red | Green | Yellow | Blue | Magenta | Cyan | White
    | BrightBlack | BrightRed | BrightGreen | BrightYellow | BrightMagenta | BrightCyan | BrightWhite

  /** The value of `standart::foreground::<hue>`. */
  function ForegroundCode(h: Hue): (n: Byte)
    ensures 30 <= n <= 37 || n in {90, 91, 92, 93, 95, 96, 97}
  {
    match h
    case Black => 30
    case Red => 31
    case Green => 32
    case Yellow => 33
    case Blue => 34
    case Magenta => 35
    case Cyan => 36
    case White => 37
    case BrightBlack => 90
    case BrightRed => 91
    case BrightGreen => 92
    case BrightYellow => 93
    case BrightMagenta => 95
    case BrightCyan => 96
    case BrightWhite => 97
  }

  /** The value of `standart::background::<hue>`: ten above the foreground code of the same name. */
  function BackgroundCode(h: Hue): (n: Byte)
    ensures n == ForegroundCode(h) + 10
  {
    match h
    case Black => 40
    case Red => 41
    case Green => 42
    case Yellow => 43
    case Blue => 44
    case Magenta => 45
    case Cyan => 46
    case White => 47
    case BrightBlack => 100
    case BrightRed => 101
    case BrightGreen => 102
    case BrightYellow => 103
    case BrightMagenta => 105
    case BrightCyan => 106
    case BrightWhite => 107
  }

  /** Which colour a foreground code names, if any. */
  function HueOfForegroundCode(n: int): (r: Option<Hue>)
    ensures r.Some? ==> ForegroundCode(r.value) == n
    ensures r.None? ==> forall h :: ForegroundCode(h) != n
  {
    if n == 30 then Some(Black) else if n == 31 then Some(Red)
    else if n == 32 then Some(Green) else if n == 33 then Some(Yellow)
    else if n == 34 then Some(Blue) else if n == 35 then Some(Magenta)
    else if n == 36 then Some(Cyan) else if n == 37 then Some(White)
    else if n == 90 then Some(BrightBlack) else if n == 91 then Some(BrightRed)
    else if n == 92 then Some(BrightGreen) else if n == 93 then Some(BrightYellow)
    else if n == 95 then Some(BrightMagenta) else if n == 96 then Some(BrightCyan)
    else if n == 97 then Some(BrightWhite)
    else None
  }

  lemma HueOfForegroundCodeInverse(h: Hue)
    ensures HueOfForegroundCode(ForegroundCode(h)) == Some(h)
  {
  }

  /** The colour tables are one-to-one. */
  lemma CodesInjective(a: Hue, b: Hue)
    ensures ForegroundCode(a) == ForegroundCode(b) ==> a == b
    ensures BackgroundCode(a) == BackgroundCode(b) ==> a == b
  {
    HueOfForegroundCodeInverse(a);
    HueOfForegroundCodeInverse(b);
  }

  /** `operator<<(std::ostream&, standart::foreground)`. */
  function RenderForeground(h: Hue): (s: string)
    ensures s == Sgr([ForegroundCode(h)])
  {
    Csi + Decimal(ForegroundCode(h)) + "m"
  }

  /** `operator<<(std::ostream&, standart::background)`. */
  function RenderBackground(h: Hue): (s: string)
    ensures s == Sgr([BackgroundCode(h)])
  {
    Csi + Decimal(BackgroundCode(h)) + "m"
  }

  /**
    Distinct standard colours render to distinct sequences, and no foreground
    sequence equals a background sequence.
   */
  lemma StandardRenderingsDistinct(a: Hue, b: Hue)
    ensures a != b ==> RenderForeground(a) != RenderForeground(b)
    ensures a != b ==> RenderBackground(a) != RenderBackground(b)
    ensures RenderForeground(a) != RenderBackground(b)
  {
    ForegroundsDistinct(a, b);
    BackgroundsDistinct(a, b);
    LayersDistinct(a, b);
  }

  /** Between ESC '[' and 'm', a standard rendering holds the code in decimal. */
  lemma StandardCodeText(h: Hue)
    ensures RenderForeground(h)[2..|RenderForeground(h)| - 1] == Decimal(ForegroundCode(h))
    ensures RenderBackground(h)[2..|RenderBackground(h)| - 1] == Decimal(BackgroundCode(h))
  {
  }

  lemma ForegroundsDistinct(a: Hue, b: Hue)
    ensures a != b ==> RenderForeground(a) != RenderForeground(b)
  {
    StandardCodeText(a);
    StandardCodeText(b);
    DecimalInjective(ForegroundCode(a), ForegroundCode(b));
    CodesInjective(a, b);
  }

  lemma BackgroundsDistinct(a: Hue, b: Hue)
    ensures a != b ==> RenderBackground(a) != RenderBackground(b)
  {
    StandardCodeText(a);
    StandardCodeText(b);
    DecimalInjective(BackgroundCode(a), BackgroundCode(b));
    CodesInjective(a, b);
  }

  lemma LayersDistinct(a: Hue, b: Hue)
    ensures RenderForeground(a) != RenderBackground(b)
  {
    var fa, bb := ForegroundCode(a), BackgroundCode(b);
    SgrInjective([fa], [bb]);
  }

  // ---------------------------------------------------------------------------
  // colorize::extended: 256-colour palette indices

  /** `extended::foreground`: a palette index held as an `unsigned char`. */
  datatype ExtendedForeground = ExtendedForeground(value: Byte)

  /** `extended::background`: a palette index held as an `unsigned char`. */
  datatype ExtendedBackground = ExtendedBackground(value: Byte)

  /**
    The conversion of an `int` argument to the constructors' `unsigned char`
    parameter: the value modulo 256.
   */
  function ToUnsignedChar(n: int): (b: Byte)
    ensures (n - b) % 256 == 0
    ensures 0 <= n < 256 ==> b == n
  {
    n % 256
  }

  /** `extended::foreground(n)` called with an `int`: the index is `n` converted to `unsigned char`. */
  function ExtendedForegroundOf(n: int): (c: ExtendedForeground)
    ensures (n - c.value) % 256 == 0
  {
    ExtendedForeground(ToUnsignedChar(n))
  }

  /** `extended::background(n)` called with an `int`: the index is `n` converted to `unsigned char`. */
  function ExtendedBackgroundOf(n: int): (c: ExtendedBackground)
    ensures (n - c.value) % 256 == 0
  {
    ExtendedBackground(ToUnsignedChar(n))
  }

  /** An extended colour's sequence: layer, 5 and the palette index, in decimal. */
  lemma ExtendedText(layer: nat, n: nat)
    ensures Sgr([layer, 5, n]) == Csi + (Decimal(layer) + ";5;") + Decimal(n) + "m"
  {
    var ps: seq<nat> := [layer, 5, n];
    assert ps[1..] == [5, n] && ps[1..][1..] == [n];
    assert Params([n]) == Decimal(n);
    assert Params([5, n]) == "5;" + Decimal(n) by { assert Decimal(5) == "5"; }
    assert Params(ps) == (Decimal(layer) + ";5;") + Decimal(n);
  }

  /** `operator<<(std::ostream&, extended::foreground)`: "\033[38;5;" n 'm'. */
  function RenderExtendedForeground(c: ExtendedForeground): (s: string)
    ensures s == Sgr([38, 5, c.value])
  {
    ExtendedText(38, c.value);
    assert Decimal(38) + ";5;" == "38;5;";
    Csi + "38;5;" + Decimal(c.value) + "m"
  }

  /** `operator<<(std::ostream&, extended::background)`: "\033[48;5;" n 'm'. */
  function RenderExtendedBackground(c: ExtendedBackground): (s: string)
    ensures s == Sgr([48, 5, c.value])
  {
    ExtendedText(48, c.value);
    assert Decimal(48) + ";5;" == "48;5;";
    Csi + "48;5;" + Decimal(c.value) + "m"
  }

  /**
    An index given as an `int` in the palette's range is written as given, and
    one outside it wraps: `n` and `n + 256` select the same colour.
   */
  lemma ExtendedOfIntRenders(n: int)
    ensures 0 <= n < 256 ==> RenderExtendedForeground(ExtendedForegroundOf(n)) == Sgr([38, 5, n])
    ensures 0 <= n < 256 ==> RenderExtendedBackground(ExtendedBackgroundOf(n)) == Sgr([48, 5, n])
    ensures ExtendedForegroundOf(n + 256) == ExtendedForegroundOf(n)
    ensures ExtendedBackgroundOf(n + 256) == ExtendedBackgroundOf(n)
  {
    assert (n + 256) % 256 == n % 256;
  }

  /** Distinct palette indices render to distinct sequences, and the two layers never coincide. */
  lemma ExtendedRenderingsDistinct(a: Byte, b: Byte)
    ensures a != b ==> RenderExtendedForeground(ExtendedForeground(a)) != RenderExtendedForeground(ExtendedForeground(b))
    ensures a != b ==> RenderExtendedBackground(ExtendedBackground(a)) != RenderExtendedBackground(ExtendedBackground(b))
    ensures RenderExtendedForeground(ExtendedForeground(a)) != RenderExtendedBackground(ExtendedBackground(b))
  {
    SgrInjective([38, 5, a], [38, 5, b]);
    SgrInjective([48, 5, a], [48, 5, b]);
    SgrInjective([38, 5, a], [48, 5, b]);
  }

  // ---------------------------------------------------------------------------
  // Reset

  /** `ColorEndType`: a tag whose only purpose is to be streamed as a reset. */
  datatype ColorEndType = ColorEndType

  /** `colorize::end`. */
  const End: ColorEndType := ColorEndType
  /** `colorize::standart::colorEnd`. */
  const StandardColorEnd: ColorEndType := ColorEndType
  /** `colorize::extended::colorEnd`. */
  const ExtendedColorEnd: ColorEndType := ColorEndType

  /** `operator<<(std::ostream&, ColorEndType)`: "\033[0m". */
  function RenderEnd(e: ColorEndType): (s: string)
    ensures s == Sgr([0])
    ensures s == [Esc, '[', '0', 'm']
  {
    Csi + "0m"
  }

  /** The text every reset constant renders to. */
  const Reset: string := RenderEnd(End)

  /** All three reset constants render the same four characters. */
  lemma ResetsAgree()
    ensures RenderEnd(End) == RenderEnd(StandardColorEnd) == RenderEnd(ExtendedColorEnd) == Reset
    ensures Reset == [Esc, '[', '0', 'm']
  {
  }

  /** Every sequence the five renderers write has the SGR shape. */
  lemma RenderingsAreSgr(h: Hue, f: ExtendedForeground, b: ExtendedBackground, e: ColorEndType)
    ensures IsSgrShape(RenderForeground(h)) && IsSgrShape(RenderBackground(h))
    ensures IsSgrShape(RenderExtendedForeground(f)) && IsSgrShape(RenderExtendedBackground(b))
    ensures IsSgrShape(RenderEnd(e))
  {
    SgrShape([ForegroundCode(h)]);
    SgrShape([BackgroundCode(h)]);
    SgrShape([38, 5, f.value]);
    SgrShape([48, 5, b.value]);
    SgrShape([0]);
  }
}
