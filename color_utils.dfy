/**
 * Colour records, the HSV to HSL conversion behind every swatch and stroke,
 * and the CSS `hsl(H, S%, L%)` string a converted colour is printed as.
 * Hue is in degrees; saturation, value and lightness are percentages.
 */
module ColorUtils {
  import opened Wrappers
  import opened RealArith

  datatype HsvColor = HsvColor(h: real, s: real, v: real)

  datatype HslColor = HslColor(h: real, s: real, l: real)

  function Min(a: real, b: real): real { if a <= b then a else b }

  function Max(a: real, b: real): real { if a <= b then b else a }

  /** The range the picker keeps saturation and value in. */
  predicate InHsvRange(c: HsvColor) {
    0.0 <= c.s <= 100.0 && 0.0 <= c.v <= 100.0
  }

  /** HSL lightness of the 0..1 saturation s and value v. */
  function Lightness(s: real, v: real): real {
    v * (1.0 - s / 2.0)
  }

  /** HSL saturation (0..1 scale): zero when the lightness is exactly 0 or 1. */
  function HslSaturation(s: real, v: real): real {
    var l := Lightness(s, v);
    if l == 0.0 || l == 1.0 then 0.0 else (v - l) / Min(l, 1.0 - l)
  }

  /**
   * `hsv2Hsl`: rescales saturation and value to 0..1, converts, and reports
   * the HSL saturation and lightness in percent again. The hue passes
   * through; a grey (s = 0) keeps its value as its lightness.
   */
  function Hsv2Hsl(c: HsvColor): (r: HslColor)
    ensures r.h == c.h
    ensures c.s == 0.0 ==> r.l == c.v && r.s == 0.0
    ensures c.v == 0.0 ==> r.l == 0.0 && r.s == 0.0
  {
    var s := c.s / 100.0;
    var v := c.v / 100.0;
    HslColor(c.h, HslSaturation(s, v) * 100.0, Lightness(s, v) * 100.0)
  }

  /** Scaling a non-negative amount by a factor in [1/2, 1]. */
  lemma HalfToWhole(a: real, k: real)
    requires 0.0 <= a && 0.5 <= k <= 1.0
    ensures a / 2.0 <= a * k <= a
  {
    assert a * k - a / 2.0 == a * (k - 0.5);
    assert a - a * k == a * (1.0 - k);
  }

  /** A quotient of a numerator in [0, b] by a positive b lies in [0, 1]. */
  lemma QuotientInUnit(a: real, b: real)
    requires 0.0 < b && 0.0 <= a <= b
    ensures 0.0 <= a / b <= 1.0
  {
    assert (a / b) * b == a;
  }

  /** On the 0..1 scale the lightness lies between v/2 and v. */
  lemma LightnessUnit(s: real, v: real)
    requires 0.0 <= s <= 1.0 && 0.0 <= v <= 1.0
    ensures v / 2.0 <= Lightness(s, v) <= v
  {
    HalfToWhole(v, 1.0 - s / 2.0);
  }

  /** For saturation and value in range the lightness lies between v/2 and v. */
  lemma LightnessInRange(c: HsvColor)
    requires InHsvRange(c)
    ensures c.v / 2.0 <= Hsv2Hsl(c).l <= c.v
    ensures 0.0 <= Hsv2Hsl(c).l <= 100.0
  {
    LightnessUnit(c.s / 100.0, c.v / 100.0);
  }

  lemma SaturationUnit(s: real, v: real)
    requires 0.0 <= s <= 1.0 && 0.0 <= v <= 1.0
    ensures 0.0 <= HslSaturation(s, v) <= 1.0
  {
    var l := Lightness(s, v);
    LightnessUnit(s, v);
    assert v - l == v * s / 2.0;
    MulNonNegative(v, s);
    if l != 0.0 && l != 1.0 {
      if l <= 1.0 - l {
        assert 2.0 * l - v == v * (1.0 - s);
        MulNonNegative(v, 1.0 - s);
        QuotientInUnit(v - l, l);
      } else {
        QuotientInUnit(v - l, 1.0 - l);
      }
    }
  }

  /** For saturation and value in range the HSL saturation stays in [0, 100]. */
  lemma SaturationInRange(c: HsvColor)
    requires InHsvRange(c)
    ensures 0.0 <= Hsv2Hsl(c).s <= 100.0
  {
    SaturationUnit(c.s / 100.0, c.v / 100.0);
  }

  /** Black and white both get HSL saturation 0. */
  lemma BlackAndWhite(h: real, s: real)
    ensures Hsv2Hsl(HsvColor(h, s, 0.0)) == HslColor(h, 0.0, 0.0)
    ensures Hsv2Hsl(HsvColor(h, 0.0, 100.0)) == HslColor(h, 0.0, 100.0)
  {
  }

  /** The fully saturated red the painter starts with, at full and half value. */
  lemma WorkedValues()
    ensures Hsv2Hsl(HsvColor(0.0, 100.0, 100.0)) == HslColor(0.0, 100.0, 50.0)
    ensures Hsv2Hsl(HsvColor(0.0, 100.0, 50.0)) == HslColor(0.0, 100.0, 25.0)
  {
    assert Lightness(1.0, 1.0) == 0.5;
    assert HslSaturation(1.0, 1.0) == 1.0;
    assert Lightness(1.0, 0.5) == 0.25;
    assert HslSaturation(1.0, 0.5) == 1.0;
  }

  /** HSV value (0..1 scale) of the HSL saturation s and lightness l. */
  function HsvValue(s: real, l: real): real {
    l + s * Min(l, 1.0 - l)
  }

  /** HSV saturation (0..1 scale) of the HSL saturation s and lightness l. */
  function HsvSaturation(s: real, l: real): real {
    var v := HsvValue(s, l);
    if v == 0.0 then 0.0 else 2.0 * (1.0 - l / v)
  }

  /** The HSL to HSV conversion: the inverse of `Hsv2Hsl` on the picker's range. */
  function Hsl2Hsv(c: HslColor): HsvColor {
    var s := c.s / 100.0;
    var l := c.l / 100.0;
    HsvColor(c.h, HsvSaturation(s, l) * 100.0, HsvValue(s, l) * 100.0)
  }

  /** On the 0..1 scale, HSV to HSL and back returns the value, and the saturation unless the value is 0. */
  lemma RoundTripUnit(s: real, v: real)
    requires 0.0 <= s <= 1.0 && 0.0 <= v <= 1.0
    ensures HsvValue(HslSaturation(s, v), Lightness(s, v)) == v
    ensures HsvSaturation(HslSaturation(s, v), Lightness(s, v)) == if v == 0.0 then 0.0 else s
  {
    var l := Lightness(s, v);
    LightnessUnit(s, v);
    if l == 0.0 {
      assert v == 0.0;
    } else if l == 1.0 {
      assert v == 1.0;
      assert s == 0.0;
    } else {
      var m := Min(l, 1.0 - l);
      assert ((v - l) / m) * m == v - l;
      assert HsvValue(HslSaturation(s, v), l) == v;
      assert v != 0.0;
      DivideOut(v, 1.0 - s / 2.0);
    }
  }

  /**
   * Converting to HSL loses nothing on the picker's range except the
   * saturation of black: every other colour comes back unchanged.
   */
  lemma HsvRoundTrip(c: HsvColor)
    requires InHsvRange(c)
    ensures Hsl2Hsv(Hsv2Hsl(c)) == if c.v == 0.0 then HsvColor(c.h, 0.0, 0.0) else c
  {
    var s := c.s / 100.0;
    var v := c.v / 100.0;
    var r := Hsv2Hsl(c);
    assert r.s / 100.0 == HslSaturation(s, v) && r.l / 100.0 == Lightness(s, v);
    RoundTripUnit(s, v);
    assert v * 100.0 == c.v && s * 100.0 == c.s;
  }

  /** `Math.round`: the nearest integer, with halves rounded up. */
  function Round(x: real): (r: int)
    ensures r as real - 0.5 <= x < r as real + 0.5
  {
    (x + 0.5).Floor
  }

  predicate IsDigit(ch: char) { '0' <= ch <= '9' }

  predicate AllDigits(s: string) {
    forall i :: 0 <= i < |s| ==> IsDigit(s[i])
  }

  function DigitChar(d: nat): (ch: char)
    requires d < 10
    ensures IsDigit(ch) && ch as int - '0' as int == d
  {
    ('0' as int + d) as char
  }

  /** The decimal digits of n as JavaScript prints them: no leading zero unless n is 0. */
  function NatToString(n: nat): (s: string)
    ensures |s| >= 1 && AllDigits(s)
    ensures s[0] == '0' <==> n == 0
  {
    if n < 10 then [DigitChar(n)] else NatToString(n / 10) + [DigitChar(n % 10)]
  }

  /** The number a string of decimal digits denotes. */
  function DigitsValue(s: string): nat
    requires AllDigits(s)
  {
    if s == [] then 0 else DigitsValue(s[..|s| - 1]) * 10 + (s[|s| - 1] as int - '0' as int)
  }

  lemma {:induction false} NatToStringValue(n: nat)
    ensures DigitsValue(NatToString(n)) == n
  {
    if n >= 10 {
      var s := NatToString(n);
      assert s[..|s| - 1] == NatToString(n / 10);
      NatToStringValue(n / 10);
    }
  }

  /** An integer in a template string: a minus sign, if negative, then its digits. */
  function IntToString(n: int): string {
    if n < 0 then "-" + NatToString(-n) else NatToString(n)
  }

  predicate StartsNonDigit(s: string) { s == [] || !IsDigit(s[0]) }

  /** The length of the run of decimal digits at the start of s. */
  function DigitRun(s: string): (k: nat)
    ensures k <= |s|
    ensures forall i :: 0 <= i < k ==> IsDigit(s[i])
    ensures StartsNonDigit(s[k..])
  {
    if s == [] || !IsDigit(s[0]) then 0 else 1 + DigitRun(s[1..])
  }

  /** Reads a decimal number at the start of s; returns it and what follows. */
  function ScanNat(s: string): Option<(nat, string)> {
    var k := DigitRun(s);
    if k == 0 then None else Some((DigitsValue(s[..k]), s[k..]))
  }

  /** Reads an optionally negative decimal integer at the start of s; returns it and what follows. */
  function ScanInt(s: string): Option<(int, string)> {
    if |s| > 0 && s[0] == '-' then
      match ScanNat(s[1..])
      case None => None
      case Some((m, rest)) => Some((-(m as int), rest))
    else
      match ScanNat(s)
      case None => None
      case Some((m, rest)) => Some((m as int, rest))
  }

  lemma {:induction false} DigitRunOfDigits(d: string, rest: string)
    requires AllDigits(d) && StartsNonDigit(rest)
    ensures DigitRun(d + rest) == |d|
  {
    if d != [] {
      assert (d + rest)[1..] == d[1..] + rest;
      DigitRunOfDigits(d[1..], rest);
    }
  }

  /** A run of digits followed by a non-digit is read back as its value. */
  lemma ScanDigits(d: string, rest: string)
    requires |d| > 0 && AllDigits(d) && StartsNonDigit(rest)
    ensures ScanNat(d + rest) == Some((DigitsValue(d), rest))
  {
    DigitRunOfDigits(d, rest);
    assert (d + rest)[..|d|] == d;
    assert (d + rest)[|d|..] == rest;
  }

  /** A printed integer is read back whole when what follows it is not a digit. */
  lemma ScanIntToString(n: int, rest: string)
    requires StartsNonDigit(rest)
    ensures ScanInt(IntToString(n) + rest) == Some((n, rest))
  {
    if n < 0 {
      var d := NatToString(-n);
      NatToStringValue(-n);
      ScanDigits(d, rest);
      var p := "-" + d;
      assert IntToString(n) == p;
      var s := p + rest;
      assert s[0] == p[0] == '-';
      assert s[1..] == d + rest;
      assert ScanNat(s[1..]) == Some((-n, rest));
    } else {
      var d := NatToString(n);
      NatToStringValue(n);
      ScanDigits(d, rest);
      assert IntToString(n) == d;
      var s := d + rest;
      assert s[0] == d[0] && IsDigit(s[0]);
      assert ScanNat(s) == Some((n, rest));
    }
  }

  /** `color2string`: the CSS colour `hsl(H, S%, L%)`, each component rounded. */
  function Color2String(c: HslColor): (r: string)
    ensures |r| >= 10 && r[..4] == "hsl(" && r[|r| - 2..] == "%)"
  {
    "hsl(" + IntToString(Round(c.h)) + ", " + IntToString(Round(c.s)) + "%, "
      + IntToString(Round(c.l)) + "%)"
  }

  /** What follows `prefix` in s, if s starts with it. */
  function Expect(prefix: string, s: string): (r: Option<string>)
    ensures r.Some? ==> s == prefix + r.value
  {
    if |prefix| <= |s| && s[..|prefix|] == prefix then Some(s[|prefix|..]) else None
  }

  lemma ExpectPrefix(prefix: string, rest: string)
    ensures Expect(prefix, prefix + rest) == Some(rest)
  {
    assert (prefix + rest)[..|prefix|] == prefix;
    assert (prefix + rest)[|prefix|..] == rest;
  }

  /** Reads the three integers back out of an `hsl(H, S%, L%)` string. */
  function ParseHsl(s: string): Option<(int, int, int)> {
    match Expect("hsl(", s)
    case None => None
    case Some(r) =>
      match ParseHue(r)
      case None => None
      case Some((h, sat, l)) => Some((h, sat, l))
  }

  /** `H, S%, L%)` */
  function ParseHue(s: string): Option<(int, int, int)> {
    match ScanInt(s)
    case None => None
    case Some((h, r)) =>
      match Expect(", ", r)
      case None => None
      case Some(r') =>
        match ParseSaturation(r')
        case None => None
        case Some((sat, l)) => Some((h, sat, l))
  }

  /** `S%, L%)` */
  function ParseSaturation(s: string): Option<(int, int)> {
    match ScanInt(s)
    case None => None
    case Some((sat, r)) =>
      match Expect("%, ", r)
      case None => None
      case Some(r') =>
        match ParseLightness(r')
        case None => None
        case Some(l) => Some((sat, l))
  }

  /** `L%)` */
  function ParseLightness(s: string): Option<int> {
    match ScanInt(s)
    case None => None
    case Some((l, r)) => if r == "%)" then Some(l) else None
  }

  lemma ParseLightnessPrinted(l: int)
    ensures ParseLightness(IntToString(l) + "%)") == Some(l)
  {
    ScanIntToString(l, "%)");
  }

  lemma ParseSaturationPrinted(sat: int, l: int)
    ensures ParseSaturation(IntToString(sat) + ("%, " + (IntToString(l) + "%)"))) == Some((sat, l))
  {
    var r4 := IntToString(l) + "%)";
    ScanIntToString(sat, "%, " + r4);
    ExpectPrefix("%, ", r4);
    ParseLightnessPrinted(l);
  }

  lemma ParseHuePrinted(h: int, sat: int, l: int)
    ensures ParseHue(IntToString(h) + (", " + (IntToString(sat) + ("%, " + (IntToString(l) + "%)"))))) == Some((h, sat, l))
  {
    var r2 := IntToString(sat) + ("%, " + (IntToString(l) + "%)"));
    ScanIntToString(h, ", " + r2);
    ExpectPrefix(", ", r2);
    ParseSaturationPrinted(sat, l);
  }

  /** The printed colour determines its three rounded components. */
  lemma Color2StringRoundTrip(c: HslColor)
    ensures ParseHsl(Color2String(c)) == Some((Round(c.h), Round(c.s), Round(c.l)))
  {
    HslPrefix(c);
    ParseHuePrinted(Round(c.h), Round(c.s), Round(c.l));
  }

  lemma HslPrefix(c: HslColor)
    ensures Expect("hsl(", Color2String(c)) == Some(IntToString(Round(c.h)) + (", " + (IntToString(Round(c.s))
                                                    + ("%, " + (IntToString(Round(c.l)) + "%)")))))
  {
    var a, b, d := IntToString(Round(c.h)), IntToString(Round(c.s)), IntToString(Round(c.l));
    var r0 := a + (", " + (b + ("%, " + (d + "%)"))));
    assert Color2String(c) == "hsl(" + r0;
    ExpectPrefix("hsl(", r0);
  }

  lemma PrintedRed()
    ensures Color2String(HslColor(0.0, 100.0, 50.0)) == "hsl(0, 100%, 50%)"
  {
    assert Round(100.0) == 100 && Round(50.0) == 50 && Round(0.0) == 0;
    assert NatToString(10) == "10";
    assert IntToString(100) == "100";
    assert IntToString(50) == "50";
  }

  /** The painter's starting colour is printed as pure red at half lightness. */
  lemma StartingStrokeStyle()
    ensures Color2String(Hsv2Hsl(HsvColor(0.0, 100.0, 100.0))) == "hsl(0, 100%, 50%)"
  {
    WorkedValues();
    PrintedRed();
  }
}
