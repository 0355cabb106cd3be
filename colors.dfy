/** Colour helpers of the chart utilities: `hexToRgb`, `rgbToHex` and
    `generateColorGradient`. */
module Colors {
  import opened Wrappers
  import opened Text

  /** The `{r, g, b}` object `hexToRgb` returns. */
  datatype Rgb = Rgb(r: int, g: int, b: int)

  predicate IsHexDigit(c: char)
  {
    '0' <= c <= '9' || 'a' <= c <= 'f' || 'A' <= c <= 'F'
  }

  predicate AllHex(s: string)
  {
    forall i :: 0 <= i < |s| ==> IsHexDigit(s[i])
  }

  /** What the pattern `/^#?([a-f\d]{2})([a-f\d]{2})([a-f\d]{2})$/i` matches:
      six hex digits in either case, optionally after one '#'. */
  predicate IsHexColor(hex: string)
  {
    (|hex| == 6 && AllHex(hex)) || (|hex| == 7 && hex[0] == '#' && AllHex(hex[1..]))
  }

  /** `parseInt(c, 16)` of one hex digit. */
  function HexValue(c: char): (v: nat)
    requires IsHexDigit(c)
    ensures v < 16
  {
    if '0' <= c <= '9' then c as int - '0' as int
    else if 'a' <= c <= 'f' then c as int - 'a' as int + 10
    else c as int - 'A' as int + 10
  }

  /** A digit as `toString(16)` writes it: '0'..'9' or 'a'..'f'. */
  predicate IsLowerHexDigit(c: char)
  {
    '0' <= c <= '9' || 'a' <= c <= 'f'
  }

  /** Lower-case hex digit of a value below 16, as `toString(16)` writes it. */
  function HexDigit(d: nat): (c: char)
    requires d < 16
    ensures IsLowerHexDigit(c) && IsHexDigit(c) && HexValue(c) == d
  {
    if d < 10 then ('0' as int + d) as char else ('a' as int + d - 10) as char
  }

  /** The six digits after the optional '#'. */
  function HexBody(hex: string): string
  {
    if |hex| == 7 && hex[0] == '#' then hex[1..] else hex
  }

  /** `parseInt` of the two hex digits at `i` and `i + 1`. */
  function PairValue(s: string, i: nat): (v: int)
    requires i + 1 < |s| && IsHexDigit(s[i]) && IsHexDigit(s[i + 1])
    ensures 0 <= v <= 255
  {
    16 * HexValue(s[i]) + HexValue(s[i + 1])
  }

  /** `hexToRgb`: the three channels of a hex colour, or null (`None`). */
  function HexToRgb(hex: string): (c: Option<Rgb>)
    ensures c.Some? <==> IsHexColor(hex)
    ensures c.Some? ==> 0 <= c.value.r <= 255 && 0 <= c.value.g <= 255 && 0 <= c.value.b <= 255
  {
    var body := HexBody(hex);
    if |body| == 6 && AllHex(body)
    then Some(Rgb(PairValue(body, 0), PairValue(body, 2), PairValue(body, 4)))
    else None
  }

  /** The number a string of hex digits spells, most significant digit first. */
  function HexDigitsValue(s: string): nat
    requires AllHex(s)
  {
    if s == [] then 0 else 16 * HexDigitsValue(s[..|s| - 1]) + HexValue(s[|s| - 1])
  }

  /** `n.toString(16)` for a non-negative integer. */
  function NatHex(n: nat): (s: string)
    ensures s != []
  {
    if n < 16 then [HexDigit(n)] else NatHex(n / 16) + [HexDigit(n % 16)]
  }

  /** `toString(16)` writes lower-case hex digits, without a leading zero, that
      spell the number back. */
  lemma {:induction false} NatHexSpec(n: nat)
    ensures forall i :: 0 <= i < |NatHex(n)| ==> IsLowerHexDigit(NatHex(n)[i]) && IsHexDigit(NatHex(n)[i])
    ensures HexDigitsValue(NatHex(n)) == n
    ensures NatHex(n)[0] == '0' <==> n == 0
  {
    if n >= 16 {
      NatHexSpec(n / 16);
      var s := NatHex(n);
      assert s == NatHex(n / 16) + [HexDigit(n % 16)];
      assert s[..|s| - 1] == NatHex(n / 16);
    }
  }

  /** `x.toString(16)` for an integer. */
  function IntHex(x: int): string
  {
    if x < 0 then "-" + NatHex(-x) else NatHex(x)
  }

  /** One channel of `rgbToHex`: its hex digits, padded with "0" when there is only one. */
  function Channel(x: int): string
  {
    var h := IntHex(x);
    if |h| == 1 then "0" + h else h
  }

  /** `rgbToHex(r, g, b)`. */
  function RgbToHex(r: int, g: int, b: int): string
  {
    "#" + Channel(r) + Channel(g) + Channel(b)
  }

  /** A colour as `rgbToHex` writes it for channels in 0..255: '#' and six lower-case hex digits. */
  predicate IsCanonicalHex(s: string)
  {
    |s| == 7 && s[0] == '#' && forall i :: 1 <= i < 7 ==> IsLowerHexDigit(s[i])
  }

  /** A channel in 0..255 is written as exactly two lower-case digits, high one first. */
  lemma ChannelDigits(x: int)
    requires 0 <= x <= 255
    ensures Channel(x) == [HexDigit(x / 16), HexDigit(x % 16)]
  {
    if x >= 16 {
      assert NatHex(x) == NatHex(x / 16) + [HexDigit(x % 16)];
    }
  }

  /** `rgbToHex` pads each channel in 0..255 to two lower-case hex digits. */
  lemma RgbToHexCanonical(r: int, g: int, b: int)
    requires 0 <= r <= 255 && 0 <= g <= 255 && 0 <= b <= 255
    ensures var s := RgbToHex(r, g, b);
      IsCanonicalHex(s) && s[1..3] == Channel(r) && s[3..5] == Channel(g) && s[5..7] == Channel(b)
  {
    ChannelDigits(r);
    ChannelDigits(g);
    ChannelDigits(b);
    var s := RgbToHex(r, g, b);
    var cr, cg, cb := Channel(r), Channel(g), Channel(b);
    assert s == ['#', cr[0], cr[1], cg[0], cg[1], cb[0], cb[1]];
  }

  /** Round trip: `hexToRgb(rgbToHex(r, g, b))` gives back `{r, g, b}`. */
  lemma HexRoundTrip(r: int, g: int, b: int)
    requires 0 <= r <= 255 && 0 <= g <= 255 && 0 <= b <= 255
    ensures HexToRgb(RgbToHex(r, g, b)) == Some(Rgb(r, g, b))
  {
    ChannelDigits(r);
    ChannelDigits(g);
    ChannelDigits(b);
    var s := RgbToHex(r, g, b);
    RgbToHexCanonical(r, g, b);
    assert HexBody(s) == s[1..];
    assert AllHex(s[1..]);
  }

  /** The colour `hexToRgb` reads, written the way `rgbToHex` writes it:
      with '#' and lower-case digits. */
  function Normalize(hex: string): string
    requires IsHexColor(hex)
  {
    "#" + AsciiLower(HexBody(hex))
  }

  /** Writing a hex digit's value gives the digit in lower case. */
  lemma HexDigitOfValue(c: char)
    requires IsHexDigit(c)
    ensures HexDigit(HexValue(c)) == AsciiLowerChar(c)
  {
  }

  /** A channel read from two hex digits is written back as those digits in lower case. */
  lemma ChannelOfPair(s: string, k: nat)
    requires k + 1 < |s| && IsHexDigit(s[k]) && IsHexDigit(s[k + 1])
    ensures Channel(PairValue(s, k)) == [AsciiLowerChar(s[k]), AsciiLowerChar(s[k + 1])]
  {
    var v := PairValue(s, k);
    assert v / 16 == HexValue(s[k]) && v % 16 == HexValue(s[k + 1]);
    ChannelDigits(v);
    HexDigitOfValue(s[k]);
    HexDigitOfValue(s[k + 1]);
  }

  /** Three channels written as the three pairs of characters of `low` give `low` after a '#'. */
  lemma HexOfChannels(r: int, g: int, b: int, low: string)
    requires |low| == 6
    requires Channel(r) == [low[0], low[1]] && Channel(g) == [low[2], low[3]] && Channel(b) == [low[4], low[5]]
    ensures RgbToHex(r, g, b) == "#" + low
  {
    assert low == [low[0], low[1]] + [low[2], low[3]] + [low[4], low[5]];
  }

  /** The three channels read from six hex digits are written back as those digits
      in lower case, after a '#'. */
  lemma ChannelsOfBody(body: string)
    requires |body| == 6 && AllHex(body)
    ensures RgbToHex(PairValue(body, 0), PairValue(body, 2), PairValue(body, 4)) == "#" + AsciiLower(body)
  {
    ChannelOfPair(body, 0);
    ChannelOfPair(body, 2);
    ChannelOfPair(body, 4);
    HexOfChannels(PairValue(body, 0), PairValue(body, 2), PairValue(body, 4), AsciiLower(body));
  }

  /** Round trip the other way: `rgbToHex` of what `hexToRgb` accepted is the
      input, with a '#' added if it had none and its digits lower-cased. */
  lemma RgbRoundTrip(hex: string)
    requires HexToRgb(hex).Some?
    ensures var c := HexToRgb(hex).value; RgbToHex(c.r, c.g, c.b) == Normalize(hex)
  {
    var body := HexBody(hex);
    assert |body| == 6 && AllHex(body);
    ChannelsOfBody(body);
  }

  /** `Math.round`: the nearest integer, halves rounded up. */
  function Round(x: real): int
  {
    (x + 0.5).Floor
  }

  /** One channel between `a` and `b` at position `t`, as `generateColorGradient` computes it. */
  function Lerp(a: int, b: int, t: real): int
  {
    Round(a as real + t * (b - a) as real)
  }

  /** `i / (steps - 1)`; `None` stands for the NaN that `0 / 0` gives when `steps` is 1. */
  function Ratio(i: int, steps: int): Option<real>
  {
    if steps == 1 then None else Some(i as real / (steps - 1) as real)
  }

  /** The colour at position `t` between two colours. */
  function Blend(start: Rgb, end: Rgb, t: real): string
  {
    RgbToHex(Lerp(start.r, end.r, t), Lerp(start.g, end.g, t), Lerp(start.b, end.b, t))
  }

  /** What `rgbToHex` produces from three NaN channels: `NaN.toString(16)` is "NaN". */
  const NaNColor: string := "#NaNNaNNaN"

  /** The `i`-th colour of `generateColorGradient(start, end, steps)` as written. */
  function GradientColor(start: Rgb, end: Rgb, i: int, steps: int): string
  {
    match Ratio(i, steps)
    case None => NaNColor
    case Some(t) => Blend(start, end, t)
  }

  /** `generateColorGradient`: a for loop pushing one colour per step. Reading a
      channel of an unparsable colour throws a TypeError, which is `None` here;
      with no steps the loop body never runs and nothing is thrown. */
  method GenerateColorGradient(startColor: string, endColor: string, steps: int)
    returns (gradient: Option<seq<string>>)
    ensures gradient.None? <==> steps > 0 && !(IsHexColor(startColor) && IsHexColor(endColor))
    ensures gradient.Some? ==> |gradient.value| == (if steps > 0 then steps else 0)
    ensures gradient.Some? && steps > 0 ==>
      forall i :: 0 <= i < steps ==>
        gradient.value[i] == GradientColor(HexToRgb(startColor).value, HexToRgb(endColor).value, i, steps)
  {
    var start := HexToRgb(startColor);
    var end := HexToRgb(endColor);
    var colors: seq<string> := [];
    var i := 0;
    while i < steps
      invariant 0 <= i && (i <= steps || i == 0) && |colors| == i
      invariant i > 0 ==> start.Some? && end.Some?
      invariant start.Some? && end.Some? ==>
        forall k :: 0 <= k < i ==> colors[k] == GradientColor(start.value, end.value, k, steps)
    {
      if start.None? || end.None? {
        return None;
      }
      // start.r + ratio * (end.r - start.r), rounded, for each channel
      var color := GradientColor(start.value, end.value, i, steps);
      colors := colors + [color];
      i := i + 1;
    }
    return Some(colors);
  }

  /** Rounding a value between two integers stays between them. */
  lemma RoundBetween(x: real, lo: int, hi: int)
    requires lo as real <= x <= hi as real
    ensures lo <= Round(x) <= hi
  {
  }

  /** A fraction between 0 and 1 of `d` lies between 0 and `d`. */
  lemma ScaleBetween(t: real, d: real)
    requires 0.0 <= t <= 1.0
    ensures d >= 0.0 ==> 0.0 <= t * d <= d
    ensures d <= 0.0 ==> d <= t * d <= 0.0
  {
    assert d - t * d == (1.0 - t) * d;
  }

  /** The rounded channel between `a` and `b` stays between them. */
  lemma LerpBounds(a: int, b: int, t: real)
    requires 0.0 <= t <= 1.0
    ensures (if a <= b then a else b) <= Lerp(a, b, t) <= (if a <= b then b else a)
  {
    var d := (b - a) as real;
    ScaleBetween(t, d);
    if a <= b {
      RoundBetween(a as real + t * d, a, b);
    } else {
      RoundBetween(a as real + t * d, b, a);
    }
  }

  /** Position 0 gives the first colour and position 1 the second, channel by channel. */
  lemma LerpEnds(a: int, b: int)
    ensures Lerp(a, b, 0.0) == a && Lerp(a, b, 1.0) == b
  {
  }

  /** With at least two steps the gradient starts at the start colour and ends at
      the end colour, both written as `rgbToHex` writes them. */
  lemma GradientEnds(startColor: string, endColor: string, steps: int)
    requires IsHexColor(startColor) && IsHexColor(endColor) && steps >= 2
    ensures GradientColor(HexToRgb(startColor).value, HexToRgb(endColor).value, 0, steps) == Normalize(startColor)
    ensures GradientColor(HexToRgb(startColor).value, HexToRgb(endColor).value, steps - 1, steps) == Normalize(endColor)
  {
    var s, e := HexToRgb(startColor).value, HexToRgb(endColor).value;
    assert Ratio(0, steps) == Some(0.0);
    assert (steps - 1) as real / (steps - 1) as real == 1.0;
    assert Ratio(steps - 1, steps) == Some(1.0);
    LerpEnds(s.r, e.r);
    LerpEnds(s.g, e.g);
    LerpEnds(s.b, e.b);
    RgbRoundTrip(startColor);
    RgbRoundTrip(endColor);
  }

  /** With at least two steps every colour of the gradient is a well-formed
      lower-case hex colour that `hexToRgb` reads back. */
  lemma GradientWellFormed(start: Rgb, end: Rgb, i: int, steps: int)
    requires 0 <= start.r <= 255 && 0 <= start.g <= 255 && 0 <= start.b <= 255
    requires 0 <= end.r <= 255 && 0 <= end.g <= 255 && 0 <= end.b <= 255
    requires steps >= 2 && 0 <= i < steps
    ensures IsCanonicalHex(GradientColor(start, end, i, steps))
    ensures HexToRgb(GradientColor(start, end, i, steps)).Some?
  {
    var t := i as real / (steps - 1) as real;
    assert 0.0 <= t <= 1.0;
    LerpBounds(start.r, end.r, t);
    LerpBounds(start.g, end.g, t);
    LerpBounds(start.b, end.b, t);
    RgbToHexCanonical(Lerp(start.r, end.r, t), Lerp(start.g, end.g, t), Lerp(start.b, end.b, t));
    HexRoundTrip(Lerp(start.r, end.r, t), Lerp(start.g, end.g, t), Lerp(start.b, end.b, t));
  }

  /** As written, a one-step gradient is the single string "#NaNNaNNaN", which is
      not a colour at all, whatever the two colours are. */
  lemma SingleStepGradientIsNaN(start: Rgb, end: Rgb)
    ensures GradientColor(start, end, 0, 1) == NaNColor
    ensures HexToRgb(GradientColor(start, end, 0, 1)).None?
  {
    assert !IsHexDigit(NaNColor[1]);
  }

  /** The evidently intended colour: a one-step gradient uses ratio 0 instead of 0 / 0. */
  function IntendedGradientColor(start: Rgb, end: Rgb, i: int, steps: int): string
  {
    Blend(start, end, if steps == 1 then 0.0 else i as real / (steps - 1) as real)
  }

  /** The intended gradient starts at the start colour for every positive number of
      steps, a single step included, and agrees with the written one from two steps up. */
  lemma IntendedGradientStartsAtStart(startColor: string, endColor: string, steps: int)
    requires IsHexColor(startColor) && IsHexColor(endColor) && steps >= 1
    ensures IntendedGradientColor(HexToRgb(startColor).value, HexToRgb(endColor).value, 0, steps) == Normalize(startColor)
    ensures steps >= 2 ==> forall i :: 0 <= i < steps ==>
      IntendedGradientColor(HexToRgb(startColor).value, HexToRgb(endColor).value, i, steps)
        == GradientColor(HexToRgb(startColor).value, HexToRgb(endColor).value, i, steps)
  {
    var s, e := HexToRgb(startColor).value, HexToRgb(endColor).value;
    assert (if steps == 1 then 0.0 else 0 as real / (steps - 1) as real) == 0.0;
    LerpEnds(s.r, e.r);
    LerpEnds(s.g, e.g);
    LerpEnds(s.b, e.b);
    RgbRoundTrip(startColor);
  }
}
