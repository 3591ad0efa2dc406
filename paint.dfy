/**
 * The `Paint` page: free-hand strokes in the picked colour, and the 32 music
 * keys that play a sound, bounce their button and start an effect that the
 * render loop draws frame by frame until it finishes.
 *
 * Canvas calls become returned values (the stroke drawn, the operations of a
 * render frame); the values of `Math.random()` become parameters, and one call to
 * `Render` is one animation frame.
 */
module Paint {
  import opened Wrappers
  import opened ColorUtils
  import opened ColorPicker
  import opened MusicEffects
  import opened RealArith

  // ---------------------------------------------------------------------
  // Filtering the active effects
  // ---------------------------------------------------------------------

  /** `Array.prototype.filter`: the elements whose flag is set, in order. */
  function Select<T>(xs: seq<T>, keep: seq<bool>): seq<T>
    requires |keep| == |xs|
  {
    if |xs| == 0 then []
    else Select(xs[..|xs| - 1], keep[..|xs| - 1]) + (if keep[|xs| - 1] then [xs[|xs| - 1]] else [])
  }

  /** An element survives the filter exactly when some position holding it is flagged. */
  lemma {:induction false} SelectMembers<T>(xs: seq<T>, keep: seq<bool>, x: T)
    requires |keep| == |xs|
    ensures x in Select(xs, keep) <==> exists j :: 0 <= j < |xs| && xs[j] == x && keep[j]
  {
    if |xs| > 0 {
      var n := |xs| - 1;
      SelectMembers(xs[..n], keep[..n], x);
      if exists j :: 0 <= j < |xs| && xs[j] == x && keep[j] {
        var j :| 0 <= j < |xs| && xs[j] == x && keep[j];
        if j < n {
          assert xs[..n][j] == x && keep[..n][j];
        }
      }
      if x in Select(xs[..n], keep[..n]) {
        var j :| 0 <= j < n && xs[..n][j] == x && keep[..n][j];
        assert xs[j] == x && keep[j];
      }
    }
  }

  /** The filter never makes the list longer. */
  lemma {:induction false} SelectShorter<T>(xs: seq<T>, keep: seq<bool>)
    requires |keep| == |xs|
    ensures |Select(xs, keep)| <= |xs|
    ensures (forall j :: 0 <= j < |xs| ==> keep[j]) ==> Select(xs, keep) == xs
  {
    if |xs| > 0 {
      var n := |xs| - 1;
      SelectShorter(xs[..n], keep[..n]);
      if forall j :: 0 <= j < |xs| ==> keep[j] {
        assert forall j :: 0 <= j < n ==> keep[..n][j];
        assert xs[..n] + [xs[n]] == xs;
      }
    }
  }

  /** No two effects in the list share an object. */
  predicate DistinctObjs(es: seq<Effect>) {
    forall i, j :: 0 <= i < j < |es| ==> es[i].Obj() != es[j].Obj()
  }

  ghost function EffectObjs(es: seq<Effect>): set<object> {
    set i | 0 <= i < |es| :: es[i].Obj()
  }

  /** Every effect in the list keeps its invariant, and no two share an object. */
  ghost predicate EffectsValid(es: seq<Effect>)
    reads EffectObjs(es)
  {
    (forall i :: 0 <= i < |es| ==> es[i].Valid()) && DistinctObjs(es)
  }

  /** Appending a fresh effect keeps the list valid. */
  lemma AppendFresh(es: seq<Effect>, e: Effect)
    requires EffectsValid(es) && e.Valid()
    requires forall i :: 0 <= i < |es| ==> es[i].Obj() != e.Obj()
    ensures EffectsValid(es + [e])
  {
    var es' := es + [e];
    assert forall i :: 0 <= i < |es| ==> es'[i] == es[i];
  }

  /** Filtering keeps the effects' objects distinct. */
  lemma {:induction false} SelectDistinct(es: seq<Effect>, keep: seq<bool>)
    requires |keep| == |es| && DistinctObjs(es)
    ensures DistinctObjs(Select(es, keep))
  {
    if |es| > 0 {
      var n := |es| - 1;
      assert DistinctObjs(es[..n]);
      SelectDistinct(es[..n], keep[..n]);
      var prefix := Select(es[..n], keep[..n]);
      forall x | x in prefix
        ensures x.Obj() != es[n].Obj()
      {
        SelectMembers(es[..n], keep[..n], x);
        var j :| 0 <= j < n && es[..n][j] == x && keep[..n][j];
        assert es[j] == x;
      }
    }
  }

  // ---------------------------------------------------------------------
  // Keys
  // ---------------------------------------------------------------------

  /** `toLowerCase` on one character, for the ASCII letters. */
  function LowerChar(c: char): (r: char)
    ensures 'A' <= c <= 'Z' ==> 'a' <= r <= 'z'
    ensures !('A' <= c <= 'Z') ==> r == c
  {
    if 'A' <= c <= 'Z' then (c as int - 'A' as int + 'a' as int) as char else c
  }

  function UpperChar(c: char): char {
    if 'a' <= c <= 'z' then (c as int - 'a' as int + 'A' as int) as char else c
  }

  /** `String.prototype.toLowerCase`, for the ASCII letters. */
  function ToLower(s: string): (r: string)
    ensures |r| == |s|
  {
    if |s| == 0 then [] else [LowerChar(s[0])] + ToLower(s[1..])
  }

  function ToUpper(s: string): string {
    if |s| == 0 then [] else [UpperChar(s[0])] + ToUpper(s[1..])
  }

  /** Lower-casing twice is lower-casing once. */
  lemma {:induction false} ToLowerIdempotent(s: string)
    ensures ToLower(ToLower(s)) == ToLower(s)
  {
    if |s| > 0 {
      ToLowerIdempotent(s[1..]);
      assert ToLower(s)[1..] == ToLower(s[1..]);
    }
  }

  /** Lower-casing the upper-case form of a string gives its lower-case form. */
  lemma {:induction false} ToLowerIgnoresCase(s: string)
    ensures ToLower(ToUpper(s)) == ToLower(s)
  {
    if |s| > 0 {
      ToLowerIgnoresCase(s[1..]);
      assert ToUpper(s)[1..] == ToUpper(s[1..]);
    }
  }

  /** The sound file of a key: its index followed by `.mp3`. */
  function SoundName(index: nat): string {
    IntToString(index) + ".mp3"
  }

  /** Different keys play different sound files. */
  lemma SoundNamesDistinct(i: nat, j: nat)
    requires i != j
    ensures SoundName(i) != SoundName(j)
  {
    if SoundName(i) == SoundName(j) {
      var a, b := NatToString(i), NatToString(j);
      assert a == SoundName(i)[..|SoundName(i)| - 4];
      assert b == SoundName(j)[..|SoundName(j)| - 4];
      NatToStringValue(i);
      NatToStringValue(j);
    }
  }

  /** The keydown handler's lookup: the lower-cased key in `KEY_MAP`. */
  function KeyPressConfig(key: string): Option<KeyConfig> {
    LookupKey(ToLower(key))
  }

  /**
   * A letter key pressed with shift or caps lock (its upper-case form) plays
   * the same note as without. Shifted digits and punctuation name other keys
   * (`!`, `<`), which are not upper-case forms and are not covered here.
   */
  lemma KeyPressIgnoresCase(key: string)
    ensures KeyPressConfig(ToUpper(key)) == KeyPressConfig(key)
  {
    ToLowerIgnoresCase(key);
  }

  /**
   * A key event always names a key, so no key press reaches the 24th note:
   * its entry is keyed by the empty string.
   */
  lemma KeyPressNeverPlaysIndex23(key: string)
    requires |key| > 0
    ensures KeyPressConfig(key).Some? ==> KeyPressConfig(key).value.index != 23
  {
    if KeyPressConfig(key).Some? && KeyPressConfig(key).value.index == 23 {
      OnlyEmptyKeyNamesIndex23(ToLower(key));
    }
  }

  // ---------------------------------------------------------------------
  // Strokes
  // ---------------------------------------------------------------------

  /** `getBoundingClientRect()`: where the canvas is shown on the page. */
  datatype Rect = Rect(left: real, top: real, width: real, height: real)

  /** One `stroke()`: a segment, or only its end point when there is no previous point. */
  datatype Stroke = Stroke(from: Option<Point>, to: Point, style: string, lineWidth: int)

  /**
   * The canvas point of a mouse position, as written: the vertical offset is
   * scaled by the horizontal ratio and the horizontal offset by the vertical one.
   */
  function CanvasPoint(clientX: real, clientY: real, rect: Rect, canvasW: real, canvasH: real): Point
    requires rect.width > 0.0 && rect.height > 0.0
  {
    var scaleX := canvasW / rect.width;
    var scaleY := canvasH / rect.height;
    Point((clientX - rect.left) * scaleY, (clientY - rect.top) * scaleX)
  }

  /** The mapping with each offset scaled by its own axis' ratio. */
  function AxisMappedPoint(clientX: real, clientY: real, rect: Rect, canvasW: real, canvasH: real): Point
    requires rect.width > 0.0 && rect.height > 0.0
  {
    Point((clientX - rect.left) * (canvasW / rect.width), (clientY - rect.top) * (canvasH / rect.height))
  }

  /**
   * When the canvas is shown at its own aspect ratio the two ratios agree,
   * and the swapped scales land on the same point as the per-axis mapping.
   */
  lemma SwappedScalesAgreeWhenUniform(clientX: real, clientY: real, rect: Rect, canvasW: real, canvasH: real)
    requires rect.width > 0.0 && rect.height > 0.0
    requires canvasW / rect.width == canvasH / rect.height
    ensures CanvasPoint(clientX, clientY, rect, canvasW, canvasH) == AxisMappedPoint(clientX, clientY, rect, canvasW, canvasH)
  {
  }

  /** A canvas shown squashed to half its height: the swapped scales put the point elsewhere. */
  lemma SwappedScalesDifferWhenSquashed()
    ensures CanvasPoint(10.0, 10.0, Rect(0.0, 0.0, 1920.0, 540.0), 1920.0, 1080.0) == Point(20.0, 10.0)
    ensures AxisMappedPoint(10.0, 10.0, Rect(0.0, 0.0, 1920.0, 540.0), 1920.0, 1080.0) == Point(10.0, 20.0)
  {
    Quotient(1920.0, 1920.0, 1.0);
    Quotient(1080.0, 540.0, 2.0);
  }

  /** The stroke drawn after pushing a point: from the point before it, if any, to it. */
  function StrokeTo(points: seq<Point>, color: HsvColor): (r: Stroke)
    requires |points| > 0
    ensures r.to == points[|points| - 1]
    ensures r.from.Some? <==> |points| > 1
    ensures r.from.Some? ==> r.from.value == points[|points| - 2]
    ensures r.lineWidth == 5
  {
    Stroke(if |points| > 1 then Some(points[|points| - 2]) else None,
           points[|points| - 1], Color2String(Hsv2Hsl(color)), 5)
  }

  /** The stroke style names the picked colour: it parses back to its rounded HSL components. */
  lemma StrokeStyleNamesColor(points: seq<Point>, color: HsvColor)
    requires |points| > 0
    ensures var hsl := Hsv2Hsl(color);
            ParseHsl(StrokeTo(points, color).style) == Some((Round(hsl.h), Round(hsl.s), Round(hsl.l)))
  {
    Color2StringRoundTrip(Hsv2Hsl(color));
  }

  // ---------------------------------------------------------------------
  // The music keys
  // ---------------------------------------------------------------------

  const XValues: seq<int> := [-40, -30, -20, -10, 10, 20, 30, 40]
  const YValues: seq<int> := [-36, -12, 12, 36]

  /** The picture of the button at an index; `undefined` past the 32 buttons. */
  function ButtonImage(index: nat): Option<Image> {
    if index < 8 then Some(Onion)
    else if index < 16 then Some(Miku)
    else if index < 24 then Some(Bread)
    else if index < 32 then Some(Teto)
    else None
  }

  /** What one rendered `Button` shows. */
  datatype Button = Button(key: nat, image: Option<Image>, x: int, y: int, width: int, height: int, jumping: bool)

  /** `jumpingStates[i]` is truthy. */
  function Jumping(states: map<nat, bool>, i: nat): bool {
    i in states && states[i]
  }

  /** The button of index k: column k % 8, row k / 8. */
  function ButtonAt(k: nat, states: map<nat, bool>): Button
    requires k < KeyCount
  {
    Button(k, ButtonImage(k), XValues[k % 8], YValues[k / 8], 9, 21, Jumping(states, k))
  }

  /** Each button shows the picture of the effect its note starts. */
  lemma ButtonImageMatchesEffect(k: nat, states: map<nat, bool>)
    requires k < KeyCount
    ensures KeyEntries[k].config.effect.Some?
    ensures ButtonAt(k, states).image == Some(KeyEntries[k].config.effect.value.image)
  {
    EntryIndexAndEffect(k);
  }

  /** No two buttons sit at the same place. */
  lemma ButtonPositionsDistinct(k: nat, m: nat, states: map<nat, bool>)
    requires k < KeyCount && m < KeyCount && k != m
    ensures (ButtonAt(k, states).x, ButtonAt(k, states).y) != (ButtonAt(m, states).x, ButtonAt(m, states).y)
  {
    assert k == 8 * (k / 8) + k % 8;
    assert m == 8 * (m / 8) + m % 8;
    if k % 8 == m % 8 {
      assert k / 8 != m / 8;
    }
  }

  /** What one `render` frame puts on the canvas, in order. */
  datatype CanvasOp = Wash | Stamp(sprite: Sprite)

  function Washes(ops: seq<CanvasOp>): nat {
    if |ops| == 0 then 0 else Washes(ops[..|ops| - 1]) + (if ops[|ops| - 1] == Wash then 1 else 0)
  }

  lemma {:induction false} WashesAppend(ops: seq<CanvasOp>, more: seq<CanvasOp>)
    ensures Washes(ops + more) == Washes(ops) + Washes(more)
  {
    if |more| > 0 {
      var n := |more| - 1;
      WashesAppend(ops, more[..n]);
      assert (ops + more)[..|ops + more| - 1] == ops + more[..n];
    } else {
      assert ops + more == ops;
    }
  }

  /** Stamps never wash the canvas. */
  lemma {:induction false} StampsWashNothing(sprites: seq<Sprite>)
    ensures Washes(seq(|sprites|, i requires 0 <= i < |sprites| => Stamp(sprites[i]))) == 0
  {
    if |sprites| > 0 {
      var n := |sprites| - 1;
      StampsWashNothing(sprites[..n]);
      var ops := seq(|sprites|, i requires 0 <= i < |sprites| => Stamp(sprites[i]));
      assert ops[..n] == seq(n, i requires 0 <= i < n => Stamp(sprites[..n][i]));
    }
  }

  /**
   * The `filter` callback on the i-th effect: wash the canvas, draw the
   * effect, and keep it if its draw says it is still active. The other
   * effects, which own other objects, are untouched.
   */
  method FilterStep(es: seq<Effect>, i: nat, canvasW: real, canvasH: real, sample: CurveSample,
                    keep: seq<bool>, kept: seq<Effect>, ops: seq<CanvasOp>)
    returns (keep': seq<bool>, kept': seq<Effect>, ops': seq<CanvasOp>)
    requires i < |es| && DistinctObjs(es) && es[i].Valid()
    requires |keep| == i && kept == Select(es[..i], keep)
    modifies es[i].Obj()
    ensures es[i].Valid() && es[i].Frames() == old(es[i].Frames()) + 1
    ensures forall j :: 0 <= j < |es| && j != i ==> unchanged(es[j].Obj())
    ensures keep' == keep + [es[i].Active()]
    ensures kept' == Select(es[..i + 1], keep')
    ensures Washes(ops') == Washes(ops) + 1
    ensures |ops'| > |ops| && ops'[..|ops| + 1] == ops + [Wash]
  {
    var active, sprites := DrawEffect(es[i], canvasW, canvasH, sample);
    var stamps := seq(|sprites|, k requires 0 <= k < |sprites| => Stamp(sprites[k]));
    StampsWashNothing(sprites);
    WashesAppend(ops, [Wash]);
    WashesAppend(ops + [Wash], stamps);
    ops' := ops + [Wash] + stamps;
    assert es[..i + 1][..i] == es[..i];
    keep' := keep + [active];
    assert keep'[..i] == keep;
    kept' := if active then kept + [es[i]] else kept;
  }

  /**
   * `activeEffects.filter(...)`: the callback applied to every effect in
   * turn, collecting the effects still active.
   */
  method DrawAll(es: seq<Effect>, canvasW: real, canvasH: real, samples: seq<CurveSample>)
    returns (keep: seq<bool>, kept: seq<Effect>, ops: seq<CanvasOp>)
    requires DistinctObjs(es) && |samples| == |es|
    requires forall j :: 0 <= j < |es| ==> es[j].Valid()
    modifies set j | 0 <= j < |es| :: es[j].Obj()
    ensures |keep| == |es| && kept == Select(es, keep)
    ensures forall j :: 0 <= j < |es| ==> es[j].Valid()
    ensures forall j :: 0 <= j < |es| ==> keep[j] == es[j].Active()
    ensures forall j :: 0 <= j < |es| ==> es[j].Frames() == old(es[j].Frames()) + 1
    ensures Washes(ops) == |es|
    ensures |es| > 0 ==> ops[0] == Wash
  {
    keep, kept, ops := [], [], [];
    var i := 0;
    while i < |es|
      invariant 0 <= i <= |es| && |keep| == i
      invariant forall j :: 0 <= j < |es| ==> es[j].Valid()
      invariant forall j :: 0 <= j < i ==> keep[j] == es[j].Active()
      invariant forall j :: 0 <= j < i ==> es[j].Frames() == old(es[j].Frames()) + 1
      invariant forall j :: i <= j < |es| ==> es[j].Frames() == old(es[j].Frames())
      invariant kept == Select(es[..i], keep)
      invariant Washes(ops) == i
      invariant i == 0 <==> ops == []
      invariant i > 0 ==> ops[0] == Wash
    {
      var ops0 := ops;
      keep, kept, ops := FilterStep(es, i, canvasW, canvasH, samples[i], keep, kept, ops);
      assert ops[0] == (ops0 + [Wash])[0];
      i := i + 1;
    }
    assert es[..i] == es;
  }

  /** Slot i of `INDEX_TO_CONFIG` holds the i-th entry of `KEY_MAP`. */
  predicate TableFilled(table: seq<Option<KeyConfig>>) {
    |table| == KeyCount && forall i :: 0 <= i < KeyCount ==> table[i] == Some(KeyEntries[i].config)
  }

  // ---------------------------------------------------------------------
  // The page
  // ---------------------------------------------------------------------

  class Painter {
    var color: HsvColor
    var isDrawing: bool
    var drawingArr: seq<Point>
    var drawTip: bool
    var jumpingStates: map<nat, bool>
    var activeEffects: seq<Effect>
    /** `INDEX_TO_CONFIG`, filled once when the module loads. */
    const indexToConfig: seq<Option<KeyConfig>>

    ghost function Objs(): set<object>
      reads this`activeEffects
    {
      EffectObjs(activeEffects)
    }

    ghost predicate Valid()
      reads this`activeEffects, Objs()
    {
      EffectsValid(activeEffects)
    }

    constructor ()
      ensures Valid()
      ensures color == HsvColor(0.0, 100.0, 100.0) && drawTip && !isDrawing && drawingArr == []
      ensures jumpingStates == map[] && activeEffects == []
      ensures TableFilled(indexToConfig)
    {
      var table := BuildIndexToConfig();
      indexToConfig := table;
      color := HsvColor(0.0, 100.0, 100.0);
      isDrawing := false;
      drawingArr := [];
      drawTip := true;
      jumpingStates := map[];
      activeEffects := [];
    }

    /** `setColor` from the colour picker. */
    method SetColor(c: HsvColor)
      requires Valid()
      modifies this`color
      ensures Valid() && color == c
    {
      color := c;
    }

    /**
     * `handleMouseDown`: hide the tip (the first time, the canvas is washed
     * white) and start a new stroke.
     */
    method MouseDown() returns (whiteFill: bool)
      requires Valid()
      modifies this`drawTip, this`isDrawing, this`drawingArr
      ensures Valid()
      ensures whiteFill == old(drawTip) && !drawTip
      ensures isDrawing && drawingArr == []
    {
      whiteFill := drawTip;
      if drawTip {
        drawTip := false;
      }
      isDrawing := true;
      drawingArr := [];
    }

    /**
     * `handleMouseMove`: while drawing, record the canvas point and stroke
     * from the previous point to it in the current colour.
     */
    method MouseMove(clientX: real, clientY: real, rect: Rect, canvasW: real, canvasH: real) returns (stroke: Option<Stroke>)
      requires Valid()
      requires rect.width > 0.0 && rect.height > 0.0
      modifies this`drawingArr
      ensures Valid()
      ensures !isDrawing ==> stroke.None? && drawingArr == old(drawingArr)
      ensures isDrawing ==> drawingArr == old(drawingArr) + [CanvasPoint(clientX, clientY, rect, canvasW, canvasH)]
      ensures isDrawing ==> stroke == Some(StrokeTo(drawingArr, color))
      ensures isDrawing && old(drawingArr) != [] ==>
                stroke.value.from == Some(old(drawingArr)[|old(drawingArr)| - 1])
    {
      if isDrawing {
        var scaleX := canvasW / rect.width;
        var scaleY := canvasH / rect.height;
        var y := (clientY - rect.top) * scaleX;
        var x := (clientX - rect.left) * scaleY;
        assert Point(x, y) == CanvasPoint(clientX, clientY, rect, canvasW, canvasH);
        drawingArr := drawingArr + [Point(x, y)];
        stroke := Some(StrokeTo(drawingArr, color));
      } else {
        stroke := None;
      }
    }

    /** `handleMouseUp`: stop drawing. */
    method MouseUp()
      requires Valid()
      modifies this`isDrawing
      ensures Valid() && !isDrawing
    {
      isDrawing := false;
    }

    /**
     * `playNote`: hide the tip, set the key's button jumping, name its sound
     * and, when the key has an effect, append a fresh one to the active list.
     */
    method PlayNote(config: KeyConfig, r0: real, r1: real) returns (whiteFill: bool, sound: string)
      requires Valid()
      requires 0.0 <= r0 < 1.0 && 0.0 <= r1 < 1.0
      requires config.effect.Some? && config.effect.value.Motion? ==>
                 config.effect.value.frequency >= 0.0 && config.effect.value.time > 0.0
      modifies this`drawTip, this`jumpingStates, this`activeEffects
      ensures Valid()
      ensures whiteFill == old(drawTip) && !drawTip
      ensures jumpingStates == old(jumpingStates)[config.index := true]
      ensures sound == SoundName(config.index)
      ensures config.effect.None? ==> activeEffects == old(activeEffects)
      ensures config.effect.Some? ==>
                && |activeEffects| == |old(activeEffects)| + 1
                && activeEffects[..|old(activeEffects)|] == old(activeEffects)
                && var e := activeEffects[|old(activeEffects)|];
                   fresh(e.Obj()) && e.Active() && e.Frames() == 0 && (e.SlideFx? <==> config.effect.value.Slide?)
    {
      whiteFill := drawTip;
      drawTip := false;
      jumpingStates := jumpingStates[config.index := true];
      sound := SoundName(config.index);
      if config.effect.Some? {
        StartEffect(config.effect.value, r0, r1);
      }
    }

    /** `activeEffects.current.push(keyConfig.effect())`. */
    method StartEffect(kind: EffectKind, r0: real, r1: real)
      requires Valid()
      requires 0.0 <= r0 < 1.0 && 0.0 <= r1 < 1.0
      requires kind.Motion? ==> kind.frequency >= 0.0 && kind.time > 0.0
      modifies this`activeEffects
      ensures Valid()
      ensures |activeEffects| == |old(activeEffects)| + 1
      ensures activeEffects[..|old(activeEffects)|] == old(activeEffects)
      ensures var e := activeEffects[|old(activeEffects)|];
              fresh(e.Obj()) && e.Active() && e.Frames() == 0 && (e.SlideFx? <==> kind.Slide?)
    {
      var e := MakeEffect(kind, r0, r1);
      AppendFresh(activeEffects, e);
      activeEffects := activeEffects + [e];
      assert activeEffects[..|old(activeEffects)|] == old(activeEffects);
    }

    /**
     * The keydown listener: lower-case the key and play its note when
     * `KEY_MAP` has it.
     */
    method KeyDown(key: string, r0: real, r1: real) returns (played: Option<KeyConfig>, whiteFill: bool, sound: string)
      requires Valid()
      requires 0.0 <= r0 < 1.0 && 0.0 <= r1 < 1.0
      modifies this`drawTip, this`jumpingStates, this`activeEffects
      ensures Valid()
      ensures played == KeyPressConfig(key)
      ensures played.None? ==> !whiteFill && unchanged(this)
      ensures played.Some? ==> whiteFill == old(drawTip) && !drawTip
                               && jumpingStates == old(jumpingStates)[played.value.index := true]
                               && sound == SoundName(played.value.index)
                               && played.value.effect.Some?
                               && |activeEffects| == |old(activeEffects)| + 1
                               && activeEffects[..|old(activeEffects)|] == old(activeEffects)
                               && var e := activeEffects[|old(activeEffects)|];
                                  fresh(e.Obj()) && e.Active() && e.Frames() == 0
                                  && (e.SlideFx? <==> played.value.effect.value.Slide?)
    {
      played := LookupKey(ToLower(key));
      whiteFill, sound := false, "";
      if played.Some? {
        var n :| 0 <= n < |KeyEntries| && KeyEntries[n].config == played.value;
        TableMotionsConstructible(n);
        EntryIndexAndEffect(n);
        whiteFill, sound := PlayNote(played.value, r0, r1);
      }
    }

    /** A button's `onClick`: play the note of `INDEX_TO_CONFIG[k]`. */
    method Click(k: nat, r0: real, r1: real) returns (whiteFill: bool, sound: string)
      requires Valid() && TableFilled(indexToConfig)
      requires k < KeyCount
      requires 0.0 <= r0 < 1.0 && 0.0 <= r1 < 1.0
      modifies this`drawTip, this`jumpingStates, this`activeEffects
      ensures Valid()
      ensures whiteFill == old(drawTip) && !drawTip
      ensures jumpingStates == old(jumpingStates)[k := true]
      ensures Jumping(jumpingStates, k)
      ensures sound == SoundName(k)
      ensures |activeEffects| == |old(activeEffects)| + 1
      ensures activeEffects[..|old(activeEffects)|] == old(activeEffects)
      ensures var e := activeEffects[|old(activeEffects)|];
              fresh(e.Obj()) && e.Active() && e.Frames() == 0 && (e.SlideFx? <==> k % 8 == 1)
    {
      var config := indexToConfig[k].value;
      TableMotionsConstructible(k);
      EntryIndexAndEffect(k);
      whiteFill, sound := PlayNote(config, r0, r1);
    }

    /** A button's `onAnimationEnd`: it stops jumping. */
    method AnimationEnd(k: nat)
      requires Valid()
      modifies this`jumpingStates
      ensures Valid()
      ensures jumpingStates == old(jumpingStates)[k := false]
      ensures !Jumping(jumpingStates, k)
    {
      jumpingStates := jumpingStates[k := false];
    }

    /**
     * `musicKeys`: four rows of eight buttons, numbered row by row by a
     * running index.
     */
    method MusicKeys() returns (buttons: seq<Button>)
      ensures |buttons| == KeyCount
      ensures forall k :: 0 <= k < KeyCount ==> buttons[k] == ButtonAt(k, jumpingStates)
    {
      buttons := [];
      var index := 0;
      var j := 0;
      while j < |YValues|
        invariant 0 <= j <= |YValues|
        invariant index == 8 * j && |buttons| == index
        invariant forall k :: 0 <= k < index ==> buttons[k] == ButtonAt(k, jumpingStates)
      {
        var i := 0;
        while i < |XValues|
          invariant 0 <= i <= |XValues|
          invariant index == 8 * j + i && |buttons| == index
          invariant forall k :: 0 <= k < index ==> buttons[k] == ButtonAt(k, jumpingStates)
        {
          var currentIndex := index;
          var x := XValues[i];
          var y := YValues[j];
          buttons := buttons + [Button(currentIndex, ButtonImage(index), x, y, 9, 21, Jumping(jumpingStates, currentIndex))];
          index := index + 1;
          i := i + 1;
        }
        j := j + 1;
      }
    }

    /**
     * One `render` frame: for each active effect in order, wash the canvas
     * with translucent white, then draw the effect; keep the effects whose
     * draw says they are still active. `samples[i]` are the curve values
     * for the i-th effect.
     */
    method Render(canvasW: real, canvasH: real, samples: seq<CurveSample>) returns (keep: seq<bool>, ops: seq<CanvasOp>)
      requires Valid()
      requires |samples| == |activeEffects|
      modifies this`activeEffects, Objs()
      ensures Valid()
      ensures |keep| == |old(activeEffects)|
      ensures activeEffects == Select(old(activeEffects), keep)
      ensures forall j :: 0 <= j < |keep| ==> keep[j] == old(activeEffects)[j].Active()
      ensures forall j :: 0 <= j < |keep| ==> old(activeEffects)[j].Frames() == old(activeEffects[j].Frames()) + 1
      ensures Washes(ops) == |old(activeEffects)|
      ensures |old(activeEffects)| > 0 ==> ops[0] == Wash
    {
      var es := activeEffects;
      var kept;
      keep, kept, ops := DrawAll(es, canvasW, canvasH, samples);
      SelectDistinct(es, keep);
      forall k | 0 <= k < |kept|
        ensures kept[k].Valid()
      {
        SelectMembers(es, keep, kept[k]);
      }
      activeEffects := kept;
    }
  }
}
