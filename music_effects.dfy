/**
 * The effects a music key plays on the painting canvas: an image that
 * slides in from the left, and an image stamped along a motion curve a
 * given number of times per frame. Each effect is drawn once per animation
 * frame until its draw reports that it has finished. Drawing is modelled by
 * the sprite parameters each draw would hand to the canvas.
 */
module MusicEffects {
  import opened Wrappers
  import opened RealArith

  /** The four pictures the keys use, one per keyboard row. */
  datatype Image = Onion | Miku | Bread | Teto

  /** `easeOutQuart`: 1 - (1 - x)^4. */
  function EaseOutQuart(x: real): (r: real)
    ensures x == 0.0 ==> r == 0.0
    ensures x == 1.0 ==> r == 1.0
  {
    var u := 1.0 - x;
    1.0 - u * u * u * u
  }

  /**
   * On [0, 1] the easing stays in [0, 1] and runs ahead of linear motion:
   * the slide covers most of its way early and settles at the end.
   */
  lemma EaseOutQuartBounds(x: real)
    requires 0.0 <= x <= 1.0
    ensures 0.0 <= EaseOutQuart(x) <= 1.0
    ensures x <= EaseOutQuart(x)
  {
    var u := 1.0 - x;
    var u2 := u * u;
    var u3 := u2 * u;
    UnitProduct(u, u, u2);
    UnitProduct(u2, u, u3);
    UnitProduct(u3, u, u3 * u);
    assert EaseOutQuart(x) == 1.0 - u3 * u;
  }

  /** The easing never moves backwards on [0, 1]. */
  lemma EaseOutQuartMonotone(x: real, y: real)
    requires 0.0 <= x <= y <= 1.0
    ensures EaseOutQuart(x) <= EaseOutQuart(y)
  {
    var u, v := 1.0 - x, 1.0 - y;
    var u2, v2 := u * u, v * v;
    MulMonotone(v, v, u, u, v2, u2);
    UnitProduct(u, u, u2);
    var u3, v3 := u2 * u, v2 * v;
    MulMonotone(v2, v, u2, u, v3, u3);
    UnitProduct(u2, u, u3);
    MulMonotone(v3, v, u3, u, v3 * v, u3 * u);
    assert EaseOutQuart(x) == 1.0 - u3 * u;
    assert EaseOutQuart(y) == 1.0 - v3 * v;
  }

  // ---------------------------------------------------------------------
  // The sliding image
  // ---------------------------------------------------------------------

  /** What one draw of a sliding image puts on the canvas. */
  datatype SlideSprite = SlideSprite(image: Image, x: real, y: real, size: real, alpha: real)

  /** The horizontal position, as a fraction of the canvas width, at a given progress. */
  function SlideXPercent(start: real, target: real, progress: real): real {
    start + (target - start) * EaseOutQuart(progress)
  }

  /** While progress runs over [0, 1] the image moves from its start to its target and no further. */
  lemma SlideXPercentPath(start: real, target: real, progress: real)
    requires start <= target && 0.0 <= progress <= 1.0
    ensures start <= SlideXPercent(start, target, progress) <= target
    ensures progress == 0.0 ==> SlideXPercent(start, target, progress) == start
    ensures progress == 1.0 ==> SlideXPercent(start, target, progress) == target
  {
    var e := EaseOutQuart(progress);
    EaseOutQuartBounds(progress);
    var d := target - start;
    MulNonNegative(d, e);
    MulMonotone(d, e, d, 1.0, d * e, d * 1.0);
  }

  /** `globalAlpha = Math.min(progress * 2, 1)`: the image fades in over the first half. */
  function SlideAlpha(progress: real): (r: real)
    ensures r <= 1.0
    ensures r == 1.0 <==> progress >= 0.5
    ensures progress > 0.0 ==> r > 0.0
  {
    if progress * 2.0 < 1.0 then progress * 2.0 else 1.0
  }

  function SlideSpriteAt(image: Image, start: real, target: real, yPercent: real, sizePercent: real,
                         progress: real, canvasW: real, canvasH: real): SlideSprite
  {
    var size := canvasW * sizePercent;
    SlideSprite(image, SlideXPercent(start, target, progress) * canvasW, yPercent * (canvasH - size),
                size, SlideAlpha(progress))
  }

  /** The vertical position keeps the whole image on the canvas when the canvas is taller than it. */
  lemma SlideSpriteOnCanvas(image: Image, start: real, target: real, yPercent: real, sizePercent: real,
                            progress: real, canvasW: real, canvasH: real)
    requires 0.0 <= yPercent <= 1.0 && canvasW * sizePercent <= canvasH
    ensures var sp := SlideSpriteAt(image, start, target, yPercent, sizePercent, progress, canvasW, canvasH);
            0.0 <= sp.y && sp.y + sp.size <= canvasH
  {
    var room := canvasH - canvasW * sizePercent;
    MulNonNegative(yPercent, room);
    MulMonotone(yPercent, room, 1.0, room, yPercent * room, 1.0 * room);
  }

  /** Draws a sliding image takes: 33 draws leave it active, the 34th reaches progress 1.02. */
  const SlideDraws: nat := 34

  /**
   * `SlideImageEffect`: progress grows by `speed` per draw; the draw that
   * takes it to 1 or beyond reports that the effect has finished.
   * `draws` counts the draws made so far.
   */
  class SlideImageEffect {
    const image: Image
    var progress: real
    const speed: real
    const sizePercent: real
    const yPercent: real
    const targetXPercent: real
    const startXPercent: real
    var isActive: bool
    ghost var draws: nat

    ghost predicate Valid()
      reads this
    {
      && speed == 0.03 && sizePercent == 0.15 && startXPercent == -0.2
      && 0.0 <= yPercent < 1.0 && 0.0 <= targetXPercent < 0.8
      && progress == speed * draws as real
      && isActive == (progress < 1.0)
    }

    /** `r0` and `r1` are the two `Math.random()` draws of the constructor. */
    constructor (image: Image, r0: real, r1: real)
      requires 0.0 <= r0 < 1.0 && 0.0 <= r1 < 1.0
      ensures Valid() && isActive && draws == 0 && progress == 0.0
      ensures this.image == image && yPercent == r0 && targetXPercent == r1 * 0.8
    {
      this.image := image;
      progress := 0.0;
      speed := 0.03;
      sizePercent := 0.15;
      yPercent := r0;
      targetXPercent := r1 * 0.8;
      startXPercent := -0.2;
      isActive := true;
      draws := 0;
    }

    /** `draw`: advance, then report whether the effect is still active. */
    method Draw(canvasW: real, canvasH: real) returns (active: bool, sprite: SlideSprite)
      requires Valid()
      modifies this
      ensures Valid() && draws == old(draws) + 1
      ensures progress == old(progress) + speed
      ensures active == isActive
      ensures active <==> draws < SlideDraws
      ensures sprite == SlideSpriteAt(image, startXPercent, targetXPercent, yPercent, sizePercent,
                                      progress, canvasW, canvasH)
    {
      progress := progress + speed;
      draws := draws + 1;
      if progress >= 1.0 {
        isActive := false;
      }
      sprite := SlideSpriteAt(image, startXPercent, targetXPercent, yPercent, sizePercent,
                              progress, canvasW, canvasH);
      active := isActive;
    }
  }

  // ---------------------------------------------------------------------
  // The image on a motion curve
  // ---------------------------------------------------------------------

  datatype Pair = Pair(x: real, y: real)

  /** `sepia(..) saturate(..) hue-rotate(..deg)`. */
  datatype Filter = Filter(sepia: real, saturate: real, hueRotate: real)

  /** Which of the optional curves (`t2pos`, `t2rotate`, `t2scale`, `t2a`, `t2filter`) the effect was given. */
  datatype CurvesGiven = CurvesGiven(pos: bool, rotate: bool, scale: bool, alpha: bool, filter: bool)

  /**
   * What the given curves return at a frame's progress. The curves draw
   * their own random numbers, so the caller supplies their values; those
   * of curves not given are ignored.
   */
  datatype CurveSample = CurveSample(pos: Pair, rotate: real, scale: Pair, alpha: real, filter: Filter)

  /** Where and how one stamp of the image is drawn. */
  datatype Pose = Pose(pos: Pair, rotate: real, scale: Pair, alpha: real, filter: Filter)

  /**
   * The pose of a stamp, with the `||` defaults: a curve not given yields
   * its default, and so does a rotation or opacity of 0 (a falsy number);
   * the pairs and triples are arrays, which are never falsy.
   */
  function PoseAt(given: CurvesGiven, s: CurveSample): Pose {
    var rotate := if given.rotate then s.rotate else 0.0;
    var alpha := if given.alpha then s.alpha else 0.0;
    Pose(
      if given.pos then s.pos else Pair(0.5, 0.5),
      if rotate != 0.0 then rotate else 0.0,
      if given.scale then s.scale else Pair(1.0, 1.0),
      if alpha != 0.0 then alpha else 1.0,
      if given.filter then s.filter else Filter(0.4, 3.0, 0.0))
  }

  /**
   * A stamp is never drawn fully transparent through a zero opacity, and
   * an effect built without curves is drawn at the canvas centre, unrotated,
   * unscaled, opaque, with the default filter, whatever is sampled; a curve
   * that is given is followed wherever its value is truthy.
   */
  lemma PoseDefaults(given: CurvesGiven, s: CurveSample)
    ensures PoseAt(given, s).alpha != 0.0
    ensures given == CurvesGiven(false, false, false, false, false) ==>
              PoseAt(given, s) == Pose(Pair(0.5, 0.5), 0.0, Pair(1.0, 1.0), 1.0, Filter(0.4, 3.0, 0.0))
    ensures given.pos ==> PoseAt(given, s).pos == s.pos
    ensures given.rotate ==> PoseAt(given, s).rotate == s.rotate
    ensures given.scale ==> PoseAt(given, s).scale == s.scale
    ensures given.alpha && s.alpha != 0.0 ==> PoseAt(given, s).alpha == s.alpha
    ensures given.alpha && s.alpha == 0.0 ==> PoseAt(given, s).alpha == 1.0
    ensures given.filter ==> PoseAt(given, s).filter == s.filter
  {
  }

  /**
   * One stamp: the canvas is translated to the curve position (a fraction
   * of the canvas size), rotated, scaled, and the image drawn centred there.
   */
  datatype MotionSprite = MotionSprite(image: Image, x: real, y: real, pose: Pose, size: real)

  function MotionSpriteAt(image: Image, pose: Pose, sizePercent: real, canvasW: real, canvasH: real): MotionSprite {
    MotionSprite(image, pose.pos.x * canvasW, pose.pos.y * canvasH, pose, canvasW * sizePercent)
  }

  /** `currentFrame / frame`, capped at 1. */
  function Progress(currentFrame: nat, frame: real): (r: real)
    requires frame > 0.0
    ensures 0.0 <= r <= 1.0
    ensures r == 1.0 <==> currentFrame as real >= frame
    ensures currentFrame > 0 ==> r > 0.0
  {
    var p := currentFrame as real / frame;
    assert currentFrame as real >= frame <==> p >= 1.0 by {
      assert p * frame == currentFrame as real;
      if p >= 1.0 {
        MulMonotone(1.0, frame, p, frame, 1.0 * frame, p * frame);
      } else {
        PositiveProduct(1.0 - p, frame, (1.0 - p) * frame);
        assert (1.0 - p) * frame == frame - p * frame;
      }
    }
    if p > 1.0 then 1.0 else p
  }

  /**
   * The number of stamps a frame draws when the accumulator holds x: one
   * per pass of `while (frer > 1) frer--`. What is left is in (0, 1].
   */
  function SubSteps(x: real): (n: nat)
    ensures x > 0.0 ==> 0.0 < x - n as real <= 1.0
    ensures x <= 1.0 ==> n == 0
    ensures x <= 2.0 ==> n <= 1
    decreases x.Floor
  {
    if x > 1.0 then 1 + SubSteps(x - 1.0) else 0
  }

  /** n copies of x. */
  function Repeat<T>(x: T, n: nat): (r: seq<T>)
    ensures |r| == n
    ensures forall i :: 0 <= i < n ==> r[i] == x
  {
    if n == 0 then [] else Repeat(x, n - 1) + [x]
  }

  /** Stamps drawn so far, and what is left in the accumulator. */
  datatype Tally = Tally(stamps: nat, rest: real)

  /**
   * The tally after n frames at the given frequency, starting from an empty
   * accumulator: each frame adds the frequency, then draws its stamps.
   */
  function TallyAfter(n: nat, frequency: real): (r: Tally)
    requires frequency >= 0.0
    ensures 0.0 <= r.rest <= 1.0
  {
    if n == 0 then Tally(0, 0.0)
    else
      var before := TallyAfter(n - 1, frequency);
      var x := before.rest + frequency;
      Tally(before.stamps + SubSteps(x), x - SubSteps(x) as real)
  }

  /** n times the frequency, added up one frame at a time. */
  function Budget(n: nat, frequency: real): real
  {
    if n == 0 then 0.0 else Budget(n - 1, frequency) + frequency
  }

  /** The per-frame sum is the product of frame count and frequency. */
  lemma {:induction false} BudgetIsProduct(n: nat, frequency: real)
    ensures Budget(n, frequency) == n as real * frequency
  {
    if n > 0 {
      BudgetIsProduct(n - 1, frequency);
      NextMultiple((n - 1) as real, n as real, frequency);
    }
  }

  lemma NextMultiple(k: real, next: real, frequency: real)
    requires next == k + 1.0
    ensures next * frequency == k * frequency + frequency
  {
  }

  /** One frame adds exactly the frequency to stamps plus rest. */
  lemma TallyGrows(n: nat, frequency: real)
    requires frequency >= 0.0 && n > 0
    ensures TallyAfter(n, frequency).stamps as real + TallyAfter(n, frequency).rest
         == TallyAfter(n - 1, frequency).stamps as real + TallyAfter(n - 1, frequency).rest + frequency
  {
  }

  /** Nothing is lost: after n frames, stamps plus what is left is the budget. */
  lemma {:induction false} TallyBudget(n: nat, frequency: real)
    requires frequency >= 0.0
    ensures TallyAfter(n, frequency).stamps as real + TallyAfter(n, frequency).rest == Budget(n, frequency)
  {
    if n > 0 {
      TallyBudget(n - 1, frequency);
      TallyGrows(n, frequency);
    }
  }

  /**
   * Over n frames the stamps drawn are within one of n times the
   * frequency, and never above it.
   */
  lemma StampsWithinOne(n: nat, frequency: real)
    requires frequency >= 0.0
    ensures n as real * frequency - 1.0 <= TallyAfter(n, frequency).stamps as real <= n as real * frequency
  {
    TallyBudget(n, frequency);
    BudgetIsProduct(n, frequency);
  }

  /**
   * `CustomImageMotionEffect`: each draw advances one frame and adds
   * `frequency` to the accumulator `frer`; every whole unit above 1 is one
   * stamp of the image. The effect lasts `frame` = time * 60 draws.
   * `drawn` counts the stamps drawn so far.
   */
  class CustomImageMotionEffect {
    const image: Image
    const frequency: real
    const frame: real
    const curves: CurvesGiven
    const sizePercent: real
    var currentFrame: nat
    var frer: real
    var isActive: bool
    ghost var drawn: nat

    ghost predicate Valid()
      reads this
    {
      && frequency >= 0.0 && frame > 0.0 && sizePercent == 0.15
      && Tally(drawn, frer) == TallyAfter(currentFrame, frequency)
      && isActive == (currentFrame as real < frame)
    }

    constructor (image: Image, frequency: real, time: real, curves: CurvesGiven)
      requires frequency >= 0.0 && time > 0.0
      ensures Valid() && isActive && currentFrame == 0 && frer == 0.0 && drawn == 0
      ensures this.image == image && this.frequency == frequency && frame == time * 60.0
      ensures this.curves == curves
    {
      this.image := image;
      this.frequency := frequency;
      frame := time * 60.0;
      this.curves := curves;
      sizePercent := 0.15;
      currentFrame := 0;
      frer := 0.0;
      isActive := true;
      drawn := 0;
    }

    /**
     * The loop of `draw`: while the accumulator exceeds 1, draw one stamp
     * and take 1 off.
     */
    method StampWhileAboveOne(stamp: MotionSprite) returns (sprites: seq<MotionSprite>)
      requires frer >= 0.0
      modifies this`frer
      ensures sprites == Repeat(stamp, SubSteps(old(frer)))
      ensures frer == old(frer) - |sprites| as real
      ensures 0.0 <= frer <= 1.0
    {
      sprites := [];
      while frer > 1.0
        invariant frer >= 0.0
        invariant frer + |sprites| as real == old(frer)
        invariant SubSteps(old(frer)) == |sprites| + SubSteps(frer)
        invariant sprites == Repeat(stamp, |sprites|)
        decreases SubSteps(frer)
      {
        sprites := sprites + [stamp];
        frer := frer - 1.0;
      }
    }

    /**
     * `draw`: one frame. Every stamp of this frame shares its progress.
     * Over the whole run, the stamps drawn stay within one of
     * frames times frequency.
     */
    method Draw(canvasW: real, canvasH: real, sample: CurveSample) returns (active: bool, progress: real, sprites: seq<MotionSprite>)
      requires Valid()
      modifies this
      ensures Valid()
      ensures currentFrame == old(currentFrame) + 1
      ensures progress == Progress(currentFrame, frame)
      ensures sprites == Repeat(MotionSpriteAt(image, PoseAt(curves, sample), sizePercent, canvasW, canvasH),
                                SubSteps(old(frer) + frequency))
      ensures frequency <= 1.0 ==> |sprites| <= 1
      ensures frer == old(frer) + frequency - |sprites| as real
      ensures drawn == old(drawn) + |sprites|
      ensures active == isActive
      ensures active <==> currentFrame as real < frame
    {
      currentFrame := currentFrame + 1;
      progress := Progress(currentFrame, frame);
      var stamp := MotionSpriteAt(image, PoseAt(curves, sample), sizePercent, canvasW, canvasH);
      frer := frer + frequency;
      sprites := StampWhileAboveOne(stamp);
      drawn := drawn + |sprites|;
      if progress >= 1.0 {
        isActive := false;
      }
      active := isActive;
    }
  }

  // ---------------------------------------------------------------------
  // Effects behind one interface
  // ---------------------------------------------------------------------

  /** `MusicKeyEffect`: either kind of effect, behind one `draw`. */
  datatype Effect = SlideFx(slide: SlideImageEffect) | MotionFx(motion: CustomImageMotionEffect)
  {
    function Obj(): object {
      if SlideFx? then slide else motion
    }

    ghost predicate Valid()
      reads Obj()
    {
      if SlideFx? then slide.Valid() else motion.Valid()
    }

    function Active(): bool
      reads Obj()
    {
      if SlideFx? then slide.isActive else motion.isActive
    }

    /** Draws made so far. */
    ghost function Frames(): nat
      reads Obj()
    {
      if SlideFx? then slide.draws else motion.currentFrame
    }
  }

  /** What a draw puts on the canvas. */
  datatype Sprite = SlideStamp(slide: SlideSprite) | MotionStamp(motion: MotionSprite)

  /** `effect.draw(ctx)`: the effect's own draw, returning whether it is still active. */
  method DrawEffect(e: Effect, canvasW: real, canvasH: real, sample: CurveSample) returns (active: bool, sprites: seq<Sprite>)
    requires e.Valid()
    modifies e.Obj()
    ensures e.Valid() && active == e.Active()
    ensures e.Frames() == old(e.Frames()) + 1
    ensures e.SlideFx? ==>
              sprites == [SlideStamp(SlideSpriteAt(e.slide.image, e.slide.startXPercent, e.slide.targetXPercent,
                                                   e.slide.yPercent, e.slide.sizePercent, e.slide.progress,
                                                   canvasW, canvasH))]
    ensures e.MotionFx? ==> |sprites| == SubSteps(old(e.motion.frer) + e.motion.frequency)
    ensures e.MotionFx? ==>
              forall s :: s in sprites ==>
                s == MotionStamp(MotionSpriteAt(e.motion.image, PoseAt(e.motion.curves, sample),
                                                e.motion.sizePercent, canvasW, canvasH))
    ensures e.MotionFx? && e.motion.frequency <= 1.0 ==> |sprites| <= 1
  {
    if e.SlideFx? {
      var sprite;
      active, sprite := e.slide.Draw(canvasW, canvasH);
      sprites := [SlideStamp(sprite)];
    } else {
      var progress, stamps;
      active, progress, stamps := e.motion.Draw(canvasW, canvasH, sample);
      sprites := seq(|stamps|, i requires 0 <= i < |stamps| => MotionStamp(stamps[i]));
    }
  }

  // ---------------------------------------------------------------------
  // The key table
  // ---------------------------------------------------------------------

  /** Which effect a key's factory builds, with the constructor arguments the table fixes. */
  datatype EffectKind = Slide(image: Image) | Motion(image: Image, frequency: real, time: real)

  /** Every factory in the table passes all five curves to `CustomImageMotionEffect`. */
  const FactoryCurves := CurvesGiven(true, true, true, true, true)

  /**
   * `keyConfig.effect()`: build a fresh effect of the given kind. `r0` and
   * `r1` are the `Math.random()` draws of a sliding image's constructor.
   */
  method MakeEffect(kind: EffectKind, r0: real, r1: real) returns (e: Effect)
    requires 0.0 <= r0 < 1.0 && 0.0 <= r1 < 1.0
    requires kind.Motion? ==> kind.frequency >= 0.0 && kind.time > 0.0
    ensures fresh(e.Obj()) && e.Valid() && e.Active() && e.Frames() == 0
    ensures kind.Slide? <==> e.SlideFx?
    ensures e.SlideFx? ==> e.slide.image == kind.image
    ensures e.MotionFx? ==> e.motion.image == kind.image && e.motion.frequency == kind.frequency
                            && e.motion.frame == kind.time * 60.0 && e.motion.curves == FactoryCurves
  {
    if kind.Slide? {
      var s := new SlideImageEffect(kind.image, r0, r1);
      e := SlideFx(s);
    } else {
      var m := new CustomImageMotionEffect(kind.image, kind.frequency, kind.time, FactoryCurves);
      e := MotionFx(m);
    }
  }

  /** `KeyConfig`: the key's position among the 32 keys and its optional effect factory. */
  datatype KeyConfig = KeyConfig(index: nat, effect: Option<EffectKind>)

  datatype KeyEntry = KeyEntry(key: string, config: KeyConfig)

  /**
   * `KEY_MAP`, entry by entry in the order written. Row three's last key is
   * the empty string.
   */
  const KeyEntries: seq<KeyEntry> := [
    KeyEntry("1", KeyConfig(0, Some(Motion(Onion, 0.5, 1.0)))),
    KeyEntry("2", KeyConfig(1, Some(Slide(Onion)))),
    KeyEntry("3", KeyConfig(2, Some(Motion(Onion, 0.1, 1.0)))),
    KeyEntry("4", KeyConfig(3, Some(Motion(Onion, 0.2, 1.0)))),
    KeyEntry("7", KeyConfig(4, Some(Motion(Onion, 0.2, 1.0)))),
    KeyEntry("8", KeyConfig(5, Some(Motion(Onion, 0.2, 5.0)))),
    KeyEntry("9", KeyConfig(6, Some(Motion(Onion, 0.4, 5.0)))),
    KeyEntry("0", KeyConfig(7, Some(Motion(Onion, 0.3, 5.0)))),
    KeyEntry("q", KeyConfig(8, Some(Motion(Miku, 0.5, 1.0)))),
    KeyEntry("w", KeyConfig(9, Some(Slide(Miku)))),
    KeyEntry("e", KeyConfig(10, Some(Motion(Miku, 0.1, 1.0)))),
    KeyEntry("r", KeyConfig(11, Some(Motion(Miku, 0.2, 1.0)))),
    KeyEntry("u", KeyConfig(12, Some(Motion(Miku, 0.2, 1.0)))),
    KeyEntry("i", KeyConfig(13, Some(Motion(Miku, 0.2, 5.0)))),
    KeyEntry("o", KeyConfig(14, Some(Motion(Miku, 0.4, 5.0)))),
    KeyEntry("p", KeyConfig(15, Some(Motion(Miku, 0.3, 5.0)))),
    KeyEntry("a", KeyConfig(16, Some(Motion(Bread, 0.5, 1.0)))),
    KeyEntry("s", KeyConfig(17, Some(Slide(Bread)))),
    KeyEntry("d", KeyConfig(18, Some(Motion(Bread, 0.1, 1.0)))),
    KeyEntry("f", KeyConfig(19, Some(Motion(Bread, 0.2, 1.0)))),
    KeyEntry("j", KeyConfig(20, Some(Motion(Bread, 0.2, 1.0)))),
    KeyEntry("k", KeyConfig(21, Some(Motion(Bread, 0.2, 5.0)))),
    KeyEntry("l", KeyConfig(22, Some(Motion(Bread, 0.4, 5.0)))),
    KeyEntry("", KeyConfig(23, Some(Motion(Bread, 0.3, 5.0)))),
    KeyEntry("z", KeyConfig(24, Some(Motion(Teto, 0.5, 1.0)))),
    KeyEntry("x", KeyConfig(25, Some(Slide(Teto)))),
    KeyEntry("c", KeyConfig(26, Some(Motion(Teto, 0.1, 1.0)))),
    KeyEntry("v", KeyConfig(27, Some(Motion(Teto, 0.2, 1.0)))),
    KeyEntry("m", KeyConfig(28, Some(Motion(Teto, 0.2, 1.0)))),
    KeyEntry(",", KeyConfig(29, Some(Motion(Teto, 0.2, 5.0)))),
    KeyEntry(".", KeyConfig(30, Some(Motion(Teto, 0.4, 5.0)))),
    KeyEntry("/", KeyConfig(31, Some(Motion(Teto, 0.3, 5.0))))
  ]

  const KeyCount: nat := 32

  /** The picture of a keyboard row. */
  function RowImage(row: nat): Image {
    if row == 0 then Onion else if row == 1 then Miku else if row == 2 then Bread else Teto
  }

  /** The effect of a column: the same in every row, only the picture changes. */
  function ColumnEffect(col: nat, image: Image): EffectKind {
    if col == 0 then Motion(image, 0.5, 1.0)
    else if col == 1 then Slide(image)
    else if col == 2 then Motion(image, 0.1, 1.0)
    else if col <= 4 then Motion(image, 0.2, 1.0)
    else if col == 5 then Motion(image, 0.2, 5.0)
    else if col == 6 then Motion(image, 0.4, 5.0)
    else Motion(image, 0.3, 5.0)
  }

  /**
   * Every entry's index is its position, and its effect is fixed by its
   * row (the picture) and its column (the kind of motion).
   */
  lemma EntryIndexAndEffect(n: nat)
    requires n < KeyCount
    ensures |KeyEntries| == KeyCount
    ensures KeyEntries[n].config == KeyConfig(n, Some(ColumnEffect(n % 8, RowImage(n / 8))))
  {
    if n == 0 {} else if n == 1 {} else if n == 2 {} else if n == 3 {}
    else if n == 4 {} else if n == 5 {} else if n == 6 {} else if n == 7 {}
    else if n == 8 {} else if n == 9 {} else if n == 10 {} else if n == 11 {}
    else if n == 12 {} else if n == 13 {} else if n == 14 {} else if n == 15 {}
    else if n == 16 {} else if n == 17 {} else if n == 18 {} else if n == 19 {}
    else if n == 20 {} else if n == 21 {} else if n == 22 {} else if n == 23 {}
    else if n == 24 {} else if n == 25 {} else if n == 26 {} else if n == 27 {}
    else if n == 28 {} else if n == 29 {} else if n == 30 {} else {}
  }

  /** Every motion effect in the table has a positive frequency and duration, as its constructor needs. */
  lemma TableMotionsConstructible(n: nat)
    requires n < KeyCount
    ensures var e := KeyEntries[n].config.effect;
            e.Some? && (e.value.Motion? ==> e.value.frequency > 0.0 && e.value.time > 0.0)
  {
    EntryIndexAndEffect(n);
  }

  /**
   * `KEY_MAP[key]` for an own property: the last entry written with that
   * key, as in an object literal; None when no entry has it.
   */
  function FindKey(es: seq<KeyEntry>, key: string): (r: Option<KeyConfig>)
    ensures r.None? <==> forall n :: 0 <= n < |es| ==> es[n].key != key
    ensures r.Some? ==> exists n :: 0 <= n < |es| && es[n].key == key && es[n].config == r.value
                                    && forall m :: n < m < |es| ==> es[m].key != key
    decreases |es|
  {
    if |es| == 0 then None
    else if es[|es| - 1].key == key then Some(es[|es| - 1].config)
    else
      var r := FindKey(es[..|es| - 1], key);
      assert forall n :: 0 <= n < |es| - 1 ==> es[..|es| - 1][n] == es[n];
      r
  }

  function LookupKey(key: string): Option<KeyConfig> {
    FindKey(KeyEntries, key)
  }

  /**
   * The position of a single-character key in `KEY_MAP`, or -1. It is the
   * key-to-index direction of the table, written independently of it.
   */
  function CharPosition(c: char): int {
    if c == '1' then 0
    else if c == '2' then 1
    else if c == '3' then 2
    else if c == '4' then 3
    else if c == '7' then 4
    else if c == '8' then 5
    else if c == '9' then 6
    else if c == '0' then 7
    else if c == 'q' then 8
    else if c == 'w' then 9
    else if c == 'e' then 10
    else if c == 'r' then 11
    else if c == 'u' then 12
    else if c == 'i' then 13
    else if c == 'o' then 14
    else if c == 'p' then 15
    else if c == 'a' then 16
    else if c == 's' then 17
    else if c == 'd' then 18
    else if c == 'f' then 19
    else if c == 'j' then 20
    else if c == 'k' then 21
    else if c == 'l' then 22
    else if c == 'z' then 24
    else if c == 'x' then 25
    else if c == 'c' then 26
    else if c == 'v' then 27
    else if c == 'm' then 28
    else if c == ',' then 29
    else if c == '.' then 30
    else if c == '/' then 31
    else -1
  }

  function KeyPosition(key: string): int {
    if key == "" then 23 else if |key| == 1 then CharPosition(key[0]) else -1
  }

  /** Every entry's key has the entry's own position. */
  lemma KeyPositionInverts(n: nat)
    requires n < KeyCount
    ensures KeyPosition(KeyEntries[n].key) == n
  {
    if n < 16 { KeyPositionFirstRows(n); } else { KeyPositionLastRows(n); }
  }

  lemma KeyPositionFirstRows(n: nat)
    requires n < 16
    ensures KeyPosition(KeyEntries[n].key) == n
  {
    if n == 0 {} else if n == 1 {} else if n == 2 {} else if n == 3 {}
    else if n == 4 {} else if n == 5 {} else if n == 6 {} else if n == 7 {}
    else if n == 8 {} else if n == 9 {} else if n == 10 {} else if n == 11 {}
    else if n == 12 {} else if n == 13 {} else if n == 14 {} else {}
  }

  lemma KeyPositionLastRows(n: nat)
    requires 16 <= n < KeyCount
    ensures KeyPosition(KeyEntries[n].key) == n
  {
    if n == 16 {} else if n == 17 {} else if n == 18 {} else if n == 19 {}
    else if n == 20 {} else if n == 21 {} else if n == 22 {} else if n == 23 {}
    else if n == 24 {} else if n == 25 {} else if n == 26 {} else if n == 27 {}
    else if n == 28 {} else if n == 29 {} else if n == 30 {} else {}
  }

  /** No key is written twice in `KEY_MAP`, so no entry is shadowed by a later one. */
  lemma KeysDistinct()
    ensures forall a, b :: 0 <= a < b < |KeyEntries| ==> KeyEntries[a].key != KeyEntries[b].key
  {
    forall a, b | 0 <= a < b < |KeyEntries|
      ensures KeyEntries[a].key != KeyEntries[b].key
    {
      KeyPositionInverts(a);
      KeyPositionInverts(b);
    }
  }

  /** Every entry's own key looks up that entry's config. */
  lemma KeyReachesOwnEntry(n: nat)
    requires n < KeyCount
    ensures LookupKey(KeyEntries[n].key) == Some(KeyEntries[n].config)
  {
    KeysDistinct();
    EntryIndexAndEffect(n);
    var r := LookupKey(KeyEntries[n].key);
    assert r.Some?;
    var m :| 0 <= m < |KeyEntries| && KeyEntries[m].key == KeyEntries[n].key && KeyEntries[m].config == r.value;
    assert m == n;
  }

  /** The only key naming the 24th button is the empty string, which no key press produces. */
  lemma OnlyEmptyKeyNamesIndex23(key: string)
    requires LookupKey(key).Some? && LookupKey(key).value.index == 23
    ensures key == ""
  {
    var n :| 0 <= n < |KeyEntries| && KeyEntries[n].key == key && KeyEntries[n].config == LookupKey(key).value;
    EntryIndexAndEffect(n);
  }

  /**
   * `INDEX_TO_CONFIG`: a 32-slot array filled by writing each entry at its
   * own index. Since every index is the entry's position, slot i holds the
   * i-th entry whatever order the entries are visited in.
   */
  method BuildIndexToConfig() returns (table: seq<Option<KeyConfig>>)
    ensures |table| == KeyCount
    ensures forall i :: 0 <= i < KeyCount ==> table[i] == Some(KeyEntries[i].config)
    ensures forall i :: 0 <= i < KeyCount ==> table[i].value.index == i
  {
    var arr := new Option<KeyConfig>[KeyCount](_ => None);
    var n := 0;
    EntryIndexAndEffect(0);
    while n < |KeyEntries|
      invariant 0 <= n <= KeyCount
      invariant forall m :: 0 <= m < KeyCount ==> arr[m] == if m < n then Some(KeyEntries[m].config) else None
    {
      var config := KeyEntries[n].config;
      EntryIndexAndEffect(n);
      arr[config.index] := Some(config);
      n := n + 1;
    }
    table := arr[..];
    forall i | 0 <= i < KeyCount
      ensures table[i].value.index == i
    {
      EntryIndexAndEffect(i);
    }
  }
}
