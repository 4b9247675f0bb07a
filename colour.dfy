/** The popup's colour arithmetic: `hexToRgb`, which reads a `#rrggbb`
    theme colour into its three channels, and the darker hover shade that
    `updateThemeColor` derives from it by clamped subtraction. */
module Colour {
  import opened Common

  datatype Rgb = Rgb(r: int, g: int, b: int)

  predicate InByteRange(c: Rgb) { 0 <= c.r <= 255 && 0 <= c.g <= 255 && 0 <= c.b <= 255 }

  /** A character of the class `[a-f\d]` under the case-insensitive flag. */
  predicate IsHexDigit(c: char) { IsDigit(c) || 'a' <= c <= 'f' || 'A' <= c <= 'F' }

  function HexDigitValue(c: char): (v: nat)
    requires IsHexDigit(c)
    ensures v < 16
  {
    if IsDigit(c) then DigitValue(c)
    else if 'a' <= c <= 'f' then c as int - 'a' as int + 10
    else c as int - 'A' as int + 10
  }

  predicate IsHexBody(s: string) { |s| == 6 && forall i :: 0 <= i < |s| ==> IsHexDigit(s[i]) }

  /** The strings matched by the colour pattern: an optional '#' followed by
      exactly six hexadecimal digits of either case, and nothing else. */
  predicate MatchesColourPattern(s: string)
  {
    IsHexBody(s) || (|s| == 7 && s[0] == '#' && IsHexBody(s[1..]))
  }

  /** The text after an optional leading '#'. */
  function Body(s: string): (b: string)
    ensures |b| <= |s|
  {
    if |s| >= 1 && s[0] == '#' then s[1..] else s
  }

  /** parseInt of the two hex digits at k and k + 1, base 16. */
  function PairValue(s: string, k: nat): (v: int)
    requires k + 2 <= |s| && IsHexDigit(s[k]) && IsHexDigit(s[k + 1])
    ensures 0 <= v <= 255
  {
    16 * HexDigitValue(s[k]) + HexDigitValue(s[k + 1])
  }

  /** hexToRgb: the three channels when the input matches the pattern, None
      (JavaScript's null) otherwise. */
  function HexToRgb(hex: string): (r: Option<Rgb>)
    ensures r.Some? <==> MatchesColourPattern(hex)
    ensures r.Some? ==> InByteRange(r.value)
  {
    var body := Body(hex);
    if IsHexBody(body) then Some(Rgb(PairValue(body, 0), PairValue(body, 2), PairValue(body, 4)))
    else None
  }

  // ---------------------------------------------------------------------
  // The reverse direction: printing a colour as '#rrggbb'.

  function HexChar(d: nat): (c: char)
    requires d < 16
    ensures IsHexDigit(c) && HexDigitValue(c) == d && !('A' <= c <= 'F')
  {
    if d < 10 then DigitChar(d) else ('a' as int + d - 10) as char
  }

  function HexPair(v: int): (s: string)
    requires 0 <= v <= 255
    ensures |s| == 2 && IsHexDigit(s[0]) && IsHexDigit(s[1])
  {
    [HexChar(v / 16), HexChar(v % 16)]
  }

  /** The lower-case '#rrggbb' spelling of a colour, the form the popup's
      palette and default theme colour use. */
  function ToHex(c: Rgb): (s: string)
    requires InByteRange(c)
    ensures |s| == 7 && s[0] == '#'
  {
    "#" + HexPair(c.r) + HexPair(c.g) + HexPair(c.b)
  }

  function LowerHexChar(c: char): (l: char)
    requires IsHexDigit(c)
    ensures IsHexDigit(l) && !('A' <= l <= 'F') && HexDigitValue(l) == HexDigitValue(c)
  {
    if 'A' <= c <= 'F' then (c as int - 'A' as int + 'a' as int) as char else c
  }

  function LowerHex(s: string): (l: string)
    requires forall i :: 0 <= i < |s| ==> IsHexDigit(s[i])
    ensures |l| == |s|
    ensures forall i :: 0 <= i < |s| ==> l[i] == LowerHexChar(s[i])
  {
    if s == [] then [] else [LowerHexChar(s[0])] + LowerHex(s[1..])
  }

  /** Printing a byte and reading it back gives the byte. */
  lemma HexPairRoundTrip(v: int)
    requires 0 <= v <= 255
    ensures PairValue(HexPair(v), 0) == v
  {
  }

  /** Every colour with byte channels is read back exactly from its spelling. */
  lemma HexRoundTrip(c: Rgb)
    requires InByteRange(c)
    ensures HexToRgb(ToHex(c)) == Some(c)
  {
    var s := ToHex(c);
    var body := Body(s);
    assert body == HexPair(c.r) + HexPair(c.g) + HexPair(c.b);
    HexPairRoundTrip(c.r);
    HexPairRoundTrip(c.g);
    HexPairRoundTrip(c.b);
    assert PairValue(body, 0) == PairValue(HexPair(c.r), 0);
    assert PairValue(body, 2) == PairValue(HexPair(c.g), 0);
    assert PairValue(body, 4) == PairValue(HexPair(c.b), 0);
  }

  /** The hex digit that prints d is the lower-case form of any digit worth d. */
  lemma HexCharOfValue(c: char)
    requires IsHexDigit(c)
    ensures HexChar(HexDigitValue(c)) == LowerHexChar(c)
  {
  }

  lemma PairOfValue(s: string, k: nat)
    requires k + 2 <= |s| && IsHexDigit(s[k]) && IsHexDigit(s[k + 1])
    ensures HexPair(PairValue(s, k)) == [LowerHexChar(s[k]), LowerHexChar(s[k + 1])]
  {
    var v := PairValue(s, k);
    assert v / 16 == HexDigitValue(s[k]) && v % 16 == HexDigitValue(s[k + 1]);
    HexCharOfValue(s[k]);
    HexCharOfValue(s[k + 1]);
  }

  /** Each channel is the value of its own digit pair, in r, g, b order:
      printing the parsed colour gives back the input's digits, lower-cased,
      behind a '#'. So the parse loses only the case and the optional '#'. */
  lemma HexCanonical(hex: string)
    requires MatchesColourPattern(hex)
    ensures HexToRgb(hex).Some?
    ensures ToHex(HexToRgb(hex).value) == "#" + LowerHex(Body(hex))
  {
    var body := Body(hex);
    assert IsHexBody(body);
    PairOfValue(body, 0);
    PairOfValue(body, 2);
    PairOfValue(body, 4);
  }

  /** The pattern is case-insensitive: two spellings that differ only in the
      case of their digits parse to the same colour. */
  lemma HexCaseInsensitive(a: string, b: string)
    requires MatchesColourPattern(a) && MatchesColourPattern(b)
    requires LowerHex(Body(a)) == LowerHex(Body(b))
    ensures HexToRgb(a) == HexToRgb(b)
  {
    HexCanonical(a);
    HexCanonical(b);
    var ca, cb := HexToRgb(a).value, HexToRgb(b).value;
    HexRoundTrip(ca);
    HexRoundTrip(cb);
  }

  // ---------------------------------------------------------------------
  // The darker shade used for hover states.

  const ShadeStep := 20

  /** Math.max(0, v - 20). */
  function DarkerChannel(v: int): (d: int)
    ensures d >= 0
    ensures v >= 0 ==> d <= v
    ensures d == 0 || d == v - ShadeStep
    ensures v >= ShadeStep ==> d == v - ShadeStep
  {
    if v - ShadeStep > 0 then v - ShadeStep else 0
  }

  function Darker(c: Rgb): (d: Rgb)
    ensures InByteRange(c) ==> InByteRange(d)
    ensures InByteRange(c) ==> d.r <= 255 - ShadeStep && d.g <= 255 - ShadeStep && d.b <= 255 - ShadeStep
    ensures InByteRange(c) ==> d.r <= c.r && d.g <= c.g && d.b <= c.b
  {
    Rgb(DarkerChannel(c.r), DarkerChannel(c.g), DarkerChannel(c.b))
  }

  /** The CSS text `rgb(r, g, b)` that the template literal builds. */
  function RgbCss(c: Rgb): (s: string)
    ensures |s| >= 12 && s[..4] == "rgb(" && s[|s| - 1] == ')'
  {
    "rgb(" + Decimal(c.r) + ", " + Decimal(c.g) + ", " + Decimal(c.b) + ")"
  }

  /** In a digit string followed by ", ", the first comma is right after
      the digits. */
  lemma FirstComma(x: string, y: string)
    requires AllDigits(x)
    ensures (x + ", " + y)[|x|] == ','
    ensures forall k :: 0 <= k < |x| ==> (x + ", " + y)[k] != ','
  {
  }

  /** Two digit strings joined by ", " split back at the first comma. */
  lemma SplitAtComma(x: string, y: string, x': string, y': string)
    requires AllDigits(x) && AllDigits(x')
    requires x + ", " + y == x' + ", " + y'
    ensures x == x' && y == y'
  {
    var s, s' := x + ", " + y, x' + ", " + y';
    FirstComma(x, y);
    FirstComma(x', y');
    assert |x| == |x'|;
    assert x == s[..|x|] && x' == s'[..|x'|];
    assert y == s[|x| + 2..] && y' == s'[|x'| + 2..];
  }

  /** The text between `rgb(` and `)`. */
  lemma CssInner(c: Rgb, inner: string)
    requires inner == Decimal(c.r) + ", " + (Decimal(c.g) + ", " + Decimal(c.b))
    ensures RgbCss(c) == "rgb(" + inner + ")"
    ensures inner == RgbCss(c)[4..|RgbCss(c)| - 1]
  {
    var s := RgbCss(c);
    assert s == "rgb(" + inner + ")";
    assert s[4..|s| - 1] == inner;
  }

  /** The CSS text determines the colour: two colours with non-negative
      channels (every darker shade has them) print differently. */
  lemma RgbCssInjective(a: Rgb, b: Rgb)
    requires a.r >= 0 && a.g >= 0 && a.b >= 0 && b.r >= 0 && b.g >= 0 && b.b >= 0
    requires RgbCss(a) == RgbCss(b)
    ensures a == b
  {
    var ta, tb := Decimal(a.g) + ", " + Decimal(a.b), Decimal(b.g) + ", " + Decimal(b.b);
    var ia, ib := Decimal(a.r) + ", " + ta, Decimal(b.r) + ", " + tb;
    CssInner(a, ia);
    CssInner(b, ib);
    SplitAtComma(Decimal(a.r), ta, Decimal(b.r), tb);
    SplitAtComma(Decimal(a.g), Decimal(a.b), Decimal(b.g), Decimal(b.b));
    DecimalInjective(a.r, b.r);
    DecimalInjective(a.g, b.g);
    DecimalInjective(a.b, b.b);
  }
}
