/**
 * The colour wheel: a hue ring around a saturation/value square. A press
 * picks which part has the focus, a drag moves the focused channel(s), a
 * release clears the focus. Pointer positions are taken relative to the
 * wheel's centre, as `clientX - rect.left - CENTER` computes them.
 */
module ColorPicker {
  import opened Wrappers
  import opened RealArith
  import opened ColorUtils

  /**
   * A wheel of side `size`. `squareRadius` is the half side of the
   * saturation/value square, RADIUS_INSIDE / sqrt(2); having no square root,
   * the model carries it and `ValidWheel` fixes it by its square.
   */
  datatype Wheel = Wheel(size: real, squareRadius: real)

  function Center(w: Wheel): real { w.size / 2.0 }

  function RadiusOutside(w: Wheel): real { w.size / 2.0 }

  function RadiusInside(w: Wheel): real { RadiusOutside(w) * 0.8 }

  predicate ValidWheel(w: Wheel) {
    && w.size > 0.0
    && w.squareRadius > 0.0
    && 2.0 * (w.squareRadius * w.squareRadius) == RadiusInside(w) * RadiusInside(w)
  }

  /** `"" | "h" | "sv"`: nothing, the hue ring, or the saturation/value square. */
  datatype Focus = Unfocused | H | SV

  /** `dist > RADIUS_INSIDE`, compared on squares (both sides are non-negative). */
  predicate OutsideInnerCircle(w: Wheel, x: real, y: real) {
    x * x + y * y > RadiusInside(w) * RadiusInside(w)
  }

  /** The saturation/value square, edges included. */
  predicate InSquare(w: Wheel, x: real, y: real) {
    -w.squareRadius <= x <= w.squareRadius && -w.squareRadius <= y <= w.squareRadius
  }

  lemma SquareBound(x: real, r: real)
    requires 0.0 <= r && -r <= x <= r
    ensures x * x <= r * r
  {
    if x >= 0.0 {
      assert x * x <= x * r;
      assert x * r <= r * r;
    } else {
      assert x * x == (-x) * (-x);
      assert (-x) * (-x) <= (-x) * r;
      assert (-x) * r <= r * r;
    }
  }

  /** Every point of the square lies within the inner circle: the two regions are disjoint. */
  lemma SquareInsideDisc(w: Wheel, x: real, y: real)
    requires ValidWheel(w) && InSquare(w, x, y)
    ensures !OutsideInnerCircle(w, x, y)
  {
    SquareBound(x, w.squareRadius);
    SquareBound(y, w.squareRadius);
  }

  /**
   * The focus a press sets (`handleMouseDown`): the hue ring past the inner
   * radius, with no outer bound; otherwise the square; otherwise None, and
   * the focus is left as it was.
   */
  function PressFocus(w: Wheel, x: real, y: real): (r: Option<Focus>)
    ensures r == Some(H) <==> OutsideInnerCircle(w, x, y)
    ensures r == Some(SV) <==> !OutsideInnerCircle(w, x, y) && InSquare(w, x, y)
    ensures r != Some(Unfocused)
  {
    if OutsideInnerCircle(w, x, y) then Some(H)
    else if InSquare(w, x, y) then Some(SV)
    else None
  }

  /** A press anywhere in the square, edges included, focuses the square. */
  lemma PressInSquareFocusesSV(w: Wheel, x: real, y: real)
    requires ValidWheel(w) && InSquare(w, x, y)
    ensures PressFocus(w, x, y) == Some(SV)
  {
    SquareInsideDisc(w, x, y);
  }

  lemma Exceeds(s: real, p: real)
    requires s > 0.0 && p == 0.64 * s
    ensures s + s > p
  {
  }

  /** A press in a corner of the canvas, outside the ring, still focuses the hue. */
  lemma CornerPressFocusesHue(w: Wheel)
    requires ValidWheel(w)
    ensures PressFocus(w, Center(w), Center(w)) == Some(H)
    ensures PressFocus(w, -Center(w), Center(w)) == Some(H)
  {
    var c := Center(w);
    assert c > 0.0;
    var s := c * c;
    PositiveProduct(c, c, s);
    var ri := RadiusInside(w);
    assert ri == 0.8 * c;
    assert ri * ri == 0.64 * s;
    assert (-c) * (-c) == s;
    assert s > 0.0;
    var p := ri * ri;
    assert p == 0.64 * s;
    Exceeds(s, p);
  }

  /** A fraction of b strictly between -1 and 1 stays strictly between -b and b, keeping its sign. */
  lemma ScaleUnit(b: real, f: real, p: real)
    requires b > 0.0 && -1.0 < f < 1.0 && p == b * f
    ensures -b < p < b
    ensures f >= 0.0 ==> p >= 0.0
    ensures f <= 0.0 ==> p <= 0.0
  {
    if f >= 0.0 {
      MulNonNegative(b, f);
      PositiveProduct(b, 1.0 - f, b * (1.0 - f));
      assert b * (1.0 - f) == b - p;
    } else {
      PositiveProduct(b, -f, b * (-f));
      assert b * (-f) == -p;
      PositiveProduct(b, 1.0 + f, b * (1.0 + f));
      assert b * (1.0 + f) == b + p;
    }
  }

  predicate IsWhole(x: real) { x.Floor as real == x }

  lemma WholeSum(x: real, y: real)
    requires IsWhole(x) && IsWhole(y)
    ensures IsWhole(x + y)
  {
    assert x + y == (x.Floor + y.Floor) as real;
  }

  /** Truncation toward zero, as JavaScript's `%` divides. */
  function Trunc(q: real): (t: int)
    ensures q >= 0.0 ==> 0.0 <= q - t as real < 1.0
    ensures q < 0.0 ==> -1.0 < q - t as real <= 0.0
  {
    if q >= 0.0 then q.Floor else -((-q).Floor)
  }

  lemma DivSign(a: real, b: real)
    requires b > 0.0
    ensures a >= 0.0 ==> a / b >= 0.0
    ensures a < 0.0 ==> a / b < 0.0
  {
  }

  /** The remainder left by a quotient truncated toward zero is below the divisor and keeps the dividend's sign. */
  lemma RemainderBounds(a: real, b: real, t: int)
    requires b > 0.0 && t == Trunc(a / b)
    ensures -b < a - b * t as real < b
    ensures a >= 0.0 ==> a - b * t as real >= 0.0
    ensures a < 0.0 ==> a - b * t as real <= 0.0
  {
    var q := a / b;
    DivSign(a, b);
    var f := q - t as real;
    var tr := t as real;
    assert a == b * q;
    assert b * f == b * q - b * tr;
    var r := a - b * tr;
    assert r == b * f;
    ScaleUnit(b, f, r);
    assert -b < r < b;
  }

  /** What the remainder takes away from the dividend is a whole number of divisors. */
  lemma RemainderWhole(a: real, b: real, t: int)
    requires b > 0.0
    ensures IsWhole((a - (a - b * t as real)) / b)
  {
    var r := a - b * t as real;
    assert a - r == t as real * b;
    Quotient(a - r, b, t as real);
  }

  /** JavaScript's `%` on numbers: the remainder keeps the dividend's sign. */
  function JsRemainder(a: real, b: real): (r: real)
    requires b > 0.0
    ensures -b < r < b
    ensures a >= 0.0 ==> r >= 0.0
    ensures a < 0.0 ==> r <= 0.0
    ensures IsWhole((a - r) / b)
  {
    var t := Trunc(a / b);
    RemainderBounds(a, b, t);
    RemainderWhole(a, b, t);
    a - b * t as real
  }

  /** `((h % 360) + 360) % 360`: h brought into [0, 360) by whole turns. */
  function WrapDegrees(h: real): (r: real)
    ensures 0.0 <= r < 360.0
    ensures IsWhole((h - r) / 360.0)
  {
    var m := JsRemainder(h, 360.0);
    var r := JsRemainder(m + 360.0, 360.0);
    assert (h - r) / 360.0 == (h - m) / 360.0 + (m + 360.0 - r) / 360.0 - 1.0;
    WholeSum((h - m) / 360.0, (m + 360.0 - r) / 360.0);
    WholeSum((h - m) / 360.0 + (m + 360.0 - r) / 360.0, -1.0);
    r
  }

  /** An angle already in [0, 360) is its own wrap. */
  lemma {:induction false} WrapDegreesFixed(h: real)
    requires 0.0 <= h < 360.0
    ensures WrapDegrees(h) == h
  {
    var r := WrapDegrees(h);
    var k := (h - r) / 360.0;
    assert -1.0 < k < 1.0;
    assert k.Floor == 0;
  }

  /**
   * `calH`: the hue under the pointer. `angle` is `atan2(y, x)` in degrees,
   * which the caller supplies; the hue is that angle plus 150, wrapped.
   */
  function CalH(angle: real): (r: real)
    ensures 0.0 <= r < 360.0
    ensures IsWhole((angle + 150.0 - r) / 360.0)
  {
    WrapDegrees(angle + 150.0)
  }

  /**
   * On atan2's range (-180, 180] the hue is the angle plus 150, less a turn
   * when that is negative; it is 0 exactly at angle -150.
   */
  lemma CalHOnAtan2Range(angle: real)
    requires -180.0 < angle <= 180.0
    ensures CalH(angle) == if angle >= -150.0 then angle + 150.0 else angle + 510.0
    ensures CalH(angle) == 0.0 <==> angle == -150.0
  {
    var r := CalH(angle);
    var k := (angle + 150.0 - r) / 360.0;
    if angle >= -150.0 {
      assert -1.0 < k < 1.0;
      assert k.Floor == 0;
    } else {
      assert -2.0 < k < 0.0;
      assert k.Floor == -1;
    }
  }

  function Clamp(x: real): (r: real)
    ensures 0.0 <= r <= 100.0
    ensures 0.0 <= x <= 100.0 ==> r == x
    ensures x < 0.0 ==> r == 0.0
    ensures x > 100.0 ==> r == 100.0
  {
    Min(100.0, Max(0.0, x))
  }

  datatype SatValue = SatValue(s: real, v: real)

  /** A position on the wheel's canvas. */
  datatype Point = Point(x: real, y: real)

  /** Saturation grows left to right across the square and value bottom to top. */
  function SquareS(w: Wheel, x: real): real
    requires ValidWheel(w)
  {
    100.0 * (x / (w.squareRadius * 2.0) + 0.5)
  }

  function SquareV(w: Wheel, y: real): real
    requires ValidWheel(w)
  {
    100.0 * (0.5 - y / (w.squareRadius * 2.0))
  }

  /** `calSV`: the linear map of the pointer across the square, each component clamped to [0, 100]. */
  function CalSV(w: Wheel, x: real, y: real): (r: SatValue)
    requires ValidWheel(w)
    ensures 0.0 <= r.s <= 100.0 && 0.0 <= r.v <= 100.0
  {
    SatValue(Clamp(SquareS(w, x)), Clamp(SquareV(w, y)))
  }

  /** The centre of the square is half saturation, half value. */
  lemma CalSVCentre(w: Wheel)
    requires ValidWheel(w)
    ensures CalSV(w, 0.0, 0.0) == SatValue(50.0, 50.0)
  {
  }

  /** Inside the square nothing is clamped, and the map reaches each corner exactly. */
  lemma CalSVOnSquare(w: Wheel, x: real, y: real)
    requires ValidWheel(w) && InSquare(w, x, y)
    ensures CalSV(w, x, y) == SatValue(SquareS(w, x), SquareV(w, y))
    ensures CalSV(w, -w.squareRadius, w.squareRadius) == SatValue(0.0, 0.0)
    ensures CalSV(w, w.squareRadius, -w.squareRadius) == SatValue(100.0, 100.0)
  {
    var d := w.squareRadius * 2.0;
    HalfBound(x, w.squareRadius);
    HalfBound(y, w.squareRadius);
    Quotient(w.squareRadius, d, 0.5);
    Quotient(-w.squareRadius, d, -0.5);
  }

  /** Within [-r, r], a coordinate is at most half the square's side away from the centre. */
  lemma HalfBound(x: real, r: real)
    requires r > 0.0 && -r <= x <= r
    ensures -0.5 <= x / (r * 2.0) <= 0.5
  {
    var d := r * 2.0;
    var q := x / d;
    assert q * d == x;
  }

  /** Canvas position of the saturation/value indicator (the second tip of `drawTips`). */
  function SvTip(w: Wheel, s: real, v: real): Point
    requires ValidWheel(w)
  {
    Point(Center(w) - w.squareRadius + (s / 100.0) * (w.squareRadius * 2.0),
     Center(w) + w.squareRadius - (v / 100.0) * (w.squareRadius * 2.0))
  }

  /**
   * The indicator of a colour in range sits in the square, and pressing it
   * reads back exactly that saturation and value.
   */
  lemma SvTipRoundTrip(w: Wheel, s: real, v: real)
    requires ValidWheel(w) && 0.0 <= s <= 100.0 && 0.0 <= v <= 100.0
    ensures var tip := SvTip(w, s, v);
            InSquare(w, tip.x - Center(w), tip.y - Center(w))
            && CalSV(w, tip.x - Center(w), tip.y - Center(w)) == SatValue(s, v)
  {
    var d := w.squareRadius * 2.0;
    var x := -w.squareRadius + (s / 100.0) * d;
    var y := w.squareRadius - (v / 100.0) * d;
    assert SvTip(w, s, v).x - Center(w) == x;
    assert SvTip(w, s, v).y - Center(w) == y;
    assert InSquare(w, x, y) by {
      MulMonotone(s / 100.0, d, 1.0, d, (s / 100.0) * d, 1.0 * d);
      MulNonNegative(s / 100.0, d);
      MulMonotone(v / 100.0, d, 1.0, d, (v / 100.0) * d, 1.0 * d);
      MulNonNegative(v / 100.0, d);
    }
    assert SquareS(w, x) == s by {
      assert x == (s / 100.0 - 0.5) * d;
      Quotient(x, d, s / 100.0 - 0.5);
    }
    assert SquareV(w, y) == v by {
      assert y == (0.5 - v / 100.0) * d;
      Quotient(y, d, 0.5 - v / 100.0);
    }
  }

  /** Conversely, the indicator of what a press in the square reads is the pressed point. */
  lemma CalSVTipInverse(w: Wheel, x: real, y: real)
    requires ValidWheel(w) && InSquare(w, x, y)
    ensures var sv := CalSV(w, x, y);
            SvTip(w, sv.s, sv.v) == Point(Center(w) + x, Center(w) + y)
  {
    CalSVOnSquare(w, x, y);
    var d := w.squareRadius * 2.0;
    assert (SquareS(w, x) / 100.0) * d == x + w.squareRadius by {
      assert SquareS(w, x) / 100.0 == x / d + 0.5;
      assert (x / d) * d == x;
    }
    assert (SquareV(w, y) / 100.0) * d == w.squareRadius - y by {
      assert SquareV(w, y) / 100.0 == 0.5 - y / d;
      assert (y / d) * d == y;
    }
  }

  /** The fields a `calHSV` result carries; a missing field is `undefined`. */
  datatype HsvUpdate = HsvUpdate(h: Option<real>, s: Option<real>, v: Option<real>)

  /**
   * `calHSV`: the hue when the focus is "h", saturation and value when it
   * is "sv", nothing otherwise. The `h && {h}` spread drops a hue of exactly
   * 0; the saturation/value object is always truthy, so both its fields
   * are kept even when zero.
   */
  function CalHSV(w: Wheel, focus: Focus, x: real, y: real, angle: real): (r: HsvUpdate)
    requires ValidWheel(w)
    ensures focus == Unfocused ==> r == HsvUpdate(None, None, None)
    ensures focus == H ==> r.s == None && r.v == None
    ensures focus == H ==> (r.h.Some? <==> CalH(angle) != 0.0)
    ensures focus == H && r.h.Some? ==> r.h.value == CalH(angle)
    ensures focus == SV ==> r.h == None && r.s == Some(CalSV(w, x, y).s) && r.v == Some(CalSV(w, x, y).v)
    ensures r.h.Some? ==> 0.0 < r.h.value < 360.0
    ensures r.s.Some? ==> 0.0 <= r.s.value <= 100.0
    ensures r.v.Some? ==> 0.0 <= r.v.value <= 100.0
  {
    var h := if focus == H then Some(CalH(angle)) else None;
    var sv := if focus == SV then Some(CalSV(w, x, y)) else None;
    HsvUpdate(
      if h.Some? && h.value != 0.0 then h else None,
      if sv.Some? then Some(sv.value.s) else None,
      if sv.Some? then Some(sv.value.v) else None)
  }

  /** `...(newHSV.k && { k: newHSV.k })`: present and non-zero components overwrite. */
  function MergeTruthy(prev: real, u: Option<real>): real {
    if u.Some? && u.value != 0.0 then u.value else prev
  }

  /** `...("k" in newHSV && { k: newHSV.k })`: every present component overwrites. */
  function MergePresent(prev: real, u: Option<real>): real {
    if u.Some? then u.value else prev
  }

  /**
   * The colour after a press. `calHSV` here still sees the focus from before
   * the press, and zero components are not written.
   */
  function PressColor(w: Wheel, prior: Focus, prev: HsvColor, x: real, y: real, angle: real): (r: HsvColor)
    requires ValidWheel(w)
    ensures prior == Unfocused ==> r == prev
    ensures prior == H ==> r.s == prev.s && r.v == prev.v
    ensures prior == H ==> r.h == if CalH(angle) == 0.0 then prev.h else CalH(angle)
    ensures prior == SV ==> r.h == prev.h
    ensures prior == SV ==> r.s == if CalSV(w, x, y).s == 0.0 then prev.s else CalSV(w, x, y).s
    ensures prior == SV ==> r.v == if CalSV(w, x, y).v == 0.0 then prev.v else CalSV(w, x, y).v
    ensures InHsvRange(prev) ==> InHsvRange(r)
    ensures 0.0 <= prev.h < 360.0 ==> 0.0 <= r.h < 360.0
  {
    var u := CalHSV(w, prior, x, y, angle);
    HsvColor(MergeTruthy(prev.h, u.h), MergeTruthy(prev.s, u.s), MergeTruthy(prev.v, u.v))
  }

  /**
   * The colour after a drag step (`handleMouseMove`): nothing without a
   * focus; otherwise exactly the fields `calHSV` returned are overwritten.
   */
  function MoveColor(w: Wheel, focus: Focus, prev: HsvColor, x: real, y: real, angle: real): (r: HsvColor)
    requires ValidWheel(w)
    ensures focus == Unfocused ==> r == prev
    ensures focus == H ==> r.s == prev.s && r.v == prev.v
    ensures focus == H ==> r.h == if CalH(angle) == 0.0 then prev.h else CalH(angle)
    ensures focus == SV ==> r == HsvColor(prev.h, CalSV(w, x, y).s, CalSV(w, x, y).v)
    ensures InHsvRange(prev) ==> InHsvRange(r)
    ensures 0.0 <= prev.h < 360.0 ==> 0.0 <= r.h < 360.0
  {
    if focus == Unfocused then prev
    else
      var u := CalHSV(w, focus, x, y, angle);
      HsvColor(MergePresent(prev.h, u.h), MergePresent(prev.s, u.s), MergePresent(prev.v, u.v))
  }

  /** A drag step writes a zero saturation that a press at the same point would skip. */
  lemma MoveWritesZeroPressSkipsIt(w: Wheel, prev: HsvColor, y: real)
    requires ValidWheel(w) && prev.s != 0.0
    ensures MoveColor(w, SV, prev, -w.squareRadius, y, 0.0).s == 0.0
    ensures PressColor(w, SV, prev, -w.squareRadius, y, 0.0).s == prev.s
  {
    assert -w.squareRadius / (w.squareRadius * 2.0) == -0.5;
  }

  /**
   * The picker's state: its focus, and the colour it edits (the painter's
   * colour, which the picker receives with its setter).
   */
  class Picker {
    const wheel: Wheel
    var focus: Focus
    var color: HsvColor

    ghost predicate Valid()
      reads this
    {
      ValidWheel(wheel) && InHsvRange(color) && 0.0 <= color.h < 360.0
    }

    constructor (wheel: Wheel, color: HsvColor)
      requires ValidWheel(wheel) && InHsvRange(color) && 0.0 <= color.h < 360.0
      ensures Valid()
      ensures this.wheel == wheel && this.color == color && focus == Unfocused
    {
      this.wheel := wheel;
      this.color := color;
      this.focus := Unfocused;
    }

    /** `handleMouseDown`: classify the press, then merge using the focus from before it. */
    method MouseDown(x: real, y: real, angle: real)
      requires Valid()
      modifies this
      ensures Valid()
      ensures focus == match PressFocus(wheel, x, y) case Some(f) => f case None => old(focus)
      ensures color == PressColor(wheel, old(focus), old(color), x, y, angle)
    {
      var prior := focus;
      var pressed := PressFocus(wheel, x, y);
      if pressed.Some? {
        focus := pressed.value;
      }
      color := PressColor(wheel, prior, color, x, y, angle);
    }

    /** `handleMouseMove`: a drag step under the current focus. */
    method MouseMove(x: real, y: real, angle: real)
      requires Valid()
      modifies this`color
      ensures Valid()
      ensures color == MoveColor(wheel, focus, old(color), x, y, angle)
    {
      if focus == Unfocused {
        return;
      }
      color := MoveColor(wheel, focus, color, x, y, angle);
    }

    /** `handleMouseUp`: releasing anywhere clears the focus. */
    method MouseUp()
      requires Valid()
      modifies this`focus
      ensures Valid() && focus == Unfocused
    {
      focus := Unfocused;
    }
  }

  /** A fresh picker's first press never changes the colour, wherever it lands. */
  method FirstPress(w: Wheel, start: HsvColor, x: real, y: real, angle: real) returns (after: HsvColor, focus: Focus)
    requires ValidWheel(w) && InHsvRange(start) && 0.0 <= start.h < 360.0
    ensures after == start
    ensures focus == match PressFocus(w, x, y) case Some(f) => f case None => Unfocused
  {
    var p := new Picker(w, start);
    p.MouseDown(x, y, angle);
    after, focus := p.color, p.focus;
  }
}
