# Paint with music keys — a Dafny model

This project models the core of a small browser paint toy. The toy has four parts:

- **ColorUtils** converts an HSV color to HSL and prints it as a CSS `hsl(h, s%, l%)` string.
- **ColorPicker** is a color wheel with a hue ring around a saturation/value square. A press chooses which part is being dragged. Moves turn the pointer position into a new HSV color.
- **MusicEffects** defines two animated canvas effects: an image that slides in from the left, and a parametric motion effect that stamps an image a fractional number of times per frame. It also defines the 32-entry keyboard table `KEY_MAP` and the table `INDEX_TO_CONFIG` built from it, which maps each button index to its `KeyConfig`.
- **Paint** is the page. A press-drag-release draws strokes in the current color. Keys and on-screen buttons play a note, start an effect and make their button jump. An animation loop draws every active effect once per frame and drops the finished ones.

Numbers are modelled as mathematical reals. Pure code is modelled as functions with lemmas: colour conversion, number printing, hue and saturation/value arithmetic, easing and the key table. Code that updates state in place is modelled as classes with `modifies` frames:

- the picker's focus and color (`ColorPicker.Picker`);
- the two effect classes (`MusicEffects.SlideImageEffect`, `MusicEffects.CustomImageMotionEffect`);
- the page's state (`Paint.Painter`).

Some details of the model:

- Canvas drawing calls are returned as values. A slide draw returns one `SlideSprite`, a motion draw a sequence of `MotionSprite` stamps, and a render a sequence of `CanvasOp` (a translucent white wash, or a stamp).
- The printed colour string is paired with a parser (`ColorUtils.ParseHsl`), so its format is proved by a round trip.
- The mouse handlers of `Paint.tsx` keep the code's behaviour as written, which departs from the intended design in two places:
  - The pointer position is scaled with the horizontal and vertical factors swapped (`y` by `scaleX`, `x` by `scaleY`). The intended design maps each axis by its own factor. `Paint.CanvasPoint` is the code as written. `Paint.AxisMappedPoint` is the intended mapping. The two agree only when the canvas is displayed without distortion.
  - `KEY_MAP` gives the 24th button (index 23) the empty key `""`. No key press produces that key, so the note can be played only by clicking the button.
- The picker's press handler reads the focus from before the press and merges only non-zero components. Its move handler merges every present component. Both behaviours are modelled as written.

## Model

| member | source | states |
|---|---|---|
| ColorUtils.Hsv2Hsl | src/utils/color/ColorUtils.ts:19-32 | hue is kept; zero saturation gives lightness = value and saturation 0; zero value gives black |
| ColorUtils.LightnessInRange | src/utils/color/ColorUtils.ts:23 | for an in-range HSV colour, the HSL lightness lies between v/2 and v, so within [0, 100] |
| ColorUtils.SaturationInRange | src/utils/color/ColorUtils.ts:25 | for an in-range HSV colour, the HSL saturation lies within [0, 100], including the l = 0 and l = 1 guards |
| ColorUtils.BlackAndWhite | src/utils/color/ColorUtils.ts:25 | value 0 converts to HSL black and (s 0, v 100) to HSL white, each with saturation 0 |
| ColorUtils.WorkedValues | src/utils/color/ColorUtils.ts:19-32 | pure red at full and half value converts to lightness 50 and 25 with saturation 100 |
| ColorUtils.HsvRoundTrip | src/utils/color/ColorUtils.ts:19-32 | the HSL-to-HSV inverse recovers every in-range colour, except that black loses its saturation |
| ColorUtils.Round | src/utils/color/ColorUtils.ts:35 | Math.round gives the integer r with r - 0.5 <= x < r + 0.5 (halves round up) |
| ColorUtils.NatToStringValue | src/utils/color/ColorUtils.ts:35 | decimal printing of a natural number reads back as that number |
| ColorUtils.ScanIntToString | src/utils/color/ColorUtils.ts:35 | a printed integer, with its sign and followed by a non-digit, scans back as the same integer and the same rest |
| ColorUtils.Color2String | src/utils/color/ColorUtils.ts:34-36 | the string starts with `hsl(` and ends with `%)` |
| ColorUtils.Color2StringRoundTrip | src/utils/color/ColorUtils.ts:34-36 | parsing the printed string gives exactly the three rounded components |
| ColorUtils.PrintedRed | src/utils/color/ColorUtils.ts:34-36 | HSL red prints as `hsl(0, 100%, 50%)` |
| ColorUtils.StartingStrokeStyle | src/paint/Paint.tsx:17 | the page's starting colour (h 0, s 100, v 100) strokes as `hsl(0, 100%, 50%)` |
| ColorPicker.SquareInsideDisc | src/paint/toolbar/ColorPicker.tsx:14-17 | with SQUARE_RADIUS = RADIUS_INSIDE / sqrt 2, every point of the square lies inside the inner circle |
| ColorPicker.PressFocus | src/paint/toolbar/ColorPicker.tsx:230-241 | a press focuses the hue ring iff it lies beyond the inner radius, and the square iff it does not and lies in the square; otherwise the focus is left as it was |
| ColorPicker.PressInSquareFocusesSV | src/paint/toolbar/ColorPicker.tsx:230-241 | every press inside the square focuses saturation/value |
| ColorPicker.CornerPressFocusesHue | src/paint/toolbar/ColorPicker.tsx:230-241 | presses at the canvas corners, outside the wheel, still focus the hue ring |
| ColorPicker.RemainderBounds | src/paint/toolbar/ColorPicker.tsx:189 | a remainder truncated toward zero lies strictly within (-b, b) and has the sign of the dividend |
| ColorPicker.JsRemainder | src/paint/toolbar/ColorPicker.tsx:189 | JavaScript `%` on numbers: magnitude below the divisor, the dividend's sign, and a whole multiple of the divisor removed |
| ColorPicker.WrapDegrees | src/paint/toolbar/ColorPicker.tsx:189 | `(h % 360 + 360) % 360` lies in [0, 360) and differs from h by a whole number of turns |
| ColorPicker.WrapDegreesFixed | src/paint/toolbar/ColorPicker.tsx:189 | wrapping leaves an angle already in [0, 360) unchanged |
| ColorPicker.CalH | src/paint/toolbar/ColorPicker.tsx:186-192 | the hue is the pointer angle turned by 150 degrees, in [0, 360) |
| ColorPicker.CalHOnAtan2Range | src/paint/toolbar/ColorPicker.tsx:186-192 | for atan2's range (-180, 180] the hue is angle + 150 or angle + 510, and it is 0 exactly at angle -150 |
| ColorPicker.Clamp | src/paint/toolbar/ColorPicker.tsx:198-199 | `min(100, max(0, x))` lies in [0, 100], is x inside it, 0 below it and 100 above it |
| ColorPicker.CalSV | src/paint/toolbar/ColorPicker.tsx:194-205 | saturation and value are always within [0, 100] |
| ColorPicker.CalSVCentre | src/paint/toolbar/ColorPicker.tsx:194-205 | the centre of the square is saturation 50, value 50 |
| ColorPicker.CalSVOnSquare | src/paint/toolbar/ColorPicker.tsx:194-205 | inside the square no clamping happens; the lower-left corner is (0, 0) and the upper-right corner (100, 100) |
| ColorPicker.SvTipRoundTrip | src/paint/toolbar/ColorPicker.tsx:141-142 | the drawn tip of an in-range (s, v) lies in the square, and reading it back gives the same (s, v) |
| ColorPicker.CalSVTipInverse | src/paint/toolbar/ColorPicker.tsx:141-142 | the tip drawn for the colour read at a point of the square sits at that point |
| ColorPicker.CalHSV | src/paint/toolbar/ColorPicker.tsx:207-218 | without focus the update is empty; hue focus gives only the computed hue, dropped when it is 0; square focus gives only the computed s and v, zeros included; all values are in range |
| ColorPicker.PressColor | src/paint/toolbar/ColorPicker.tsx:243-252 | a press updates from the focus held before it, and a computed value of 0 leaves the old component in place; colour ranges are preserved |
| ColorPicker.MoveColor | src/paint/toolbar/ColorPicker.tsx:255-267 | a move with no focus changes nothing; with focus it writes every computed component, zeros included; ranges are preserved |
| ColorPicker.MoveWritesZeroPressSkipsIt | src/paint/toolbar/ColorPicker.tsx:243-267 | at the left edge of the square a move sets saturation 0 while a press keeps the old saturation |
| ColorPicker.Picker.constructor | src/paint/toolbar/ColorPicker.tsx:13-22 | the picker starts without focus, holding the given wheel and colour |
| ColorPicker.Picker.MouseDown | src/paint/toolbar/ColorPicker.tsx:221-253 | the focus becomes the pressed region (or stays as it was), and the colour is the press update computed from the old focus |
| ColorPicker.Picker.MouseMove | src/paint/toolbar/ColorPicker.tsx:255-267 | the colour becomes the move update for the current focus |
| ColorPicker.Picker.MouseUp | src/paint/toolbar/ColorPicker.tsx:269-271 | the focus is cleared |
| ColorPicker.FirstPress | src/paint/toolbar/ColorPicker.tsx:221-253 | the first press on a fresh picker sets the focus but leaves the colour unchanged |
| MusicEffects.EaseOutQuart | src/paint/MusicEffects.ts:55-57 | the easing maps 0 to 0 and 1 to 1 |
| MusicEffects.EaseOutQuartBounds | src/paint/MusicEffects.ts:55-57 | on [0, 1] the easing stays in [0, 1] and never lags behind linear progress |
| MusicEffects.EaseOutQuartMonotone | src/paint/MusicEffects.ts:55-57 | the easing is non-decreasing on [0, 1] |
| MusicEffects.SlideXPercentPath | src/paint/MusicEffects.ts:43 | the slide position stays between start and target, at the start for progress 0 and at the target for progress 1 |
| MusicEffects.SlideAlpha | src/paint/MusicEffects.ts:48 | opacity is at most 1, is exactly 1 from progress 0.5 on, and is positive once progress is positive |
| MusicEffects.SlideSpriteOnCanvas | src/paint/MusicEffects.ts:41-45 | the sliding image lies vertically within the canvas |
| MusicEffects.SlideImageEffect.constructor | src/paint/MusicEffects.ts:15-30 | a new slide is active with progress 0, its row is the first random number, and its target is 0.8 times the second |
| MusicEffects.SlideImageEffect.Draw | src/paint/MusicEffects.ts:32-53 | each draw advances progress by the speed and returns the sprite for it; it reports active for its first 33 draws and inactive from the 34th on |
| MusicEffects.PoseDefaults | src/paint/MusicEffects.ts:109-115 | a missing curve falls back to its default; a curve value of 0 opacity also falls back to opacity 1 |
| MusicEffects.Progress | src/paint/MusicEffects.ts:100-101 | progress is capped at 1, reaches 1 exactly when the target frame count is reached, and is positive after the first frame |
| MusicEffects.SubSteps | src/paint/MusicEffects.ts:104-126 | the number of stamps leaves a remainder in (0, 1]; at most one stamp when the budget is at most 2 |
| MusicEffects.TallyAfter | src/paint/MusicEffects.ts:103-126 | after any number of frames the carried fraction lies in [0, 1] |
| MusicEffects.BudgetIsProduct | src/paint/MusicEffects.ts:103 | the accumulated stamp budget after n frames is n times the frequency |
| MusicEffects.TallyBudget | src/paint/MusicEffects.ts:103-126 | stamps drawn plus the carried fraction always equal the accumulated budget |
| MusicEffects.StampsWithinOne | src/paint/MusicEffects.ts:103-126 | after n frames the stamp count is within one of n times the frequency |
| MusicEffects.CustomImageMotionEffect.constructor | src/paint/MusicEffects.ts:76-94 | a new motion effect is active at frame 0, with frame target time * 60 and the given image, frequency and curves |
| MusicEffects.CustomImageMotionEffect.StampWhileAboveOne | src/paint/MusicEffects.ts:104-126 | the loop stamps once per whole unit above 1 and leaves the carried fraction in [0, 1] |
| MusicEffects.CustomImageMotionEffect.Draw | src/paint/MusicEffects.ts:97-133 | each draw advances the frame, adds the frequency to the budget, stamps the posed sprite once per spent unit, and returns active iff the target frame is not reached |
| MusicEffects.DrawEffect | src/paint/MusicEffects.ts:11-13 | drawing either kind of effect keeps it valid, counts one more frame and reports its activity; a slide returns the one sprite at its new progress, a motion effect the posed sprite once per spent budget unit |
| MusicEffects.MakeEffect | src/paint/MusicEffects.ts:148-176 | a key's effect factory builds a fresh, active, undrawn effect of the configured kind, image and frequency |
| MusicEffects.EntryIndexAndEffect | src/paint/MusicEffects.ts:146-1002 | the table has 32 entries; entry n has index n, its row's image, and its column's effect |
| MusicEffects.TableMotionsConstructible | src/paint/MusicEffects.ts:146-1002 | every entry has an effect, and every motion effect has a positive frequency and duration |
| MusicEffects.FindKey | src/paint/Paint.tsx:101-102 | lookup finds nothing iff no entry has the key; otherwise it finds the last entry with that key |
| MusicEffects.KeyPositionInverts | src/paint/MusicEffects.ts:146-1002 | an independently written key-to-position function gives back each entry's own position |
| MusicEffects.KeysDistinct | src/paint/MusicEffects.ts:146-1002 | no two entries of the table share a key, so none is shadowed |
| MusicEffects.KeyReachesOwnEntry | src/paint/Paint.tsx:101-102 | looking up an entry's own key gives that entry's config |
| MusicEffects.OnlyEmptyKeyNamesIndex23 | src/paint/MusicEffects.ts:765-766 | the only key that reaches index 23 is the empty string |
| MusicEffects.BuildIndexToConfig | src/paint/MusicEffects.ts:1004-1009 | the 32-slot table holds at slot i the entry whose index is i |
| Paint.SelectMembers | src/paint/Paint.tsx:115-119 | an element survives the filter iff it occurs at a kept position |
| Paint.SelectShorter | src/paint/Paint.tsx:115-119 | filtering never lengthens the list, and keeping everything returns the list unchanged |
| Paint.SelectDistinct | src/paint/Paint.tsx:115-119 | filtering keeps the effects pairwise distinct objects |
| Paint.ToLowerIdempotent | src/paint/Paint.tsx:100 | lower-casing twice is the same as once |
| Paint.ToLowerIgnoresCase | src/paint/Paint.tsx:100 | lower-casing the upper-case form of a key gives its lower-case form |
| Paint.SoundNamesDistinct | src/paint/Paint.tsx:88 | different indices name different sound files |
| Paint.KeyPressIgnoresCase | src/paint/Paint.tsx:100-103 | a letter key pressed with shift or caps lock (its upper-case form) plays the same note as without; shifted digits and punctuation produce other keys and are not covered |
| Paint.KeyPressNeverPlaysIndex23 | src/paint/Paint.tsx:100-103 | no non-empty key press reaches index 23 |
| Paint.SwappedScalesAgreeWhenUniform | src/paint/Paint.tsx:53-56 | with equal horizontal and vertical scale factors, the swapped mapping equals the per-axis mapping |
| Paint.SwappedScalesDifferWhenSquashed | src/paint/Paint.tsx:53-56 | for a 1920x1080 canvas shown at 1920x540, the swapped mapping lands at a different point than the per-axis mapping |
| Paint.StrokeTo | src/paint/Paint.tsx:60-67 | the segment ends at the newest point, starts at the previous point iff there is one, and has width 5 |
| Paint.StrokeStyleNamesColor | src/paint/Paint.tsx:62 | the stroke style parses back to the rounded HSL of the current colour |
| Paint.ButtonImageMatchesEffect | src/paint/Paint.tsx:145-155 | each button shows the same picture its key's effect draws |
| Paint.ButtonPositionsDistinct | src/paint/Paint.tsx:131-139 | no two of the 32 buttons share a position |
| Paint.FilterStep | src/paint/Paint.tsx:115-118 | one filter step washes the canvas once, draws effect i (one more frame) and records whether it stays, touching no other effect |
| Paint.DrawAll | src/paint/Paint.tsx:115-119 | every effect is drawn once, after a wash each; the kept list is exactly the effects that remain active |
| Paint.Painter.constructor | src/paint/Paint.tsx:17-22 | the page starts with red, the tip shown, no stroke, no jumping button, no effect and a filled index table |
| Paint.Painter.SetColor | src/paint/Paint.tsx:17 | the picker's setter replaces the current colour |
| Paint.Painter.MouseDown | src/paint/Paint.tsx:35-45 | a press hides the tip (a white fill happens iff it was shown) and starts an empty stroke |
| Paint.Painter.MouseMove | src/paint/Paint.tsx:47-70 | while drawing, the mapped point is appended and a segment from the previous point is stroked; otherwise nothing happens |
| Paint.Painter.MouseUp | src/paint/Paint.tsx:72-74 | a release ends the stroke |
| Paint.Painter.PlayNote | src/paint/Paint.tsx:84-96 | a note hides the tip, marks its button jumping, names its sound file and appends a fresh active effect when the key has one |
| Paint.Painter.StartEffect | src/paint/Paint.tsx:92-94 | the effect is appended and the earlier effects are kept |
| Paint.Painter.KeyDown | src/paint/Paint.tsx:98-104 | a key plays the note of its lower-cased name if the table has one: the tip is hidden, its button jumps, its sound is named and one fresh, active, undrawn effect of its kind is appended after the kept earlier ones; otherwise nothing changes |
| Paint.Painter.Click | src/paint/Paint.tsx:166 | clicking button k plays note k: the tip is hidden, only button k's flag is set, and one fresh, active, undrawn effect is appended after the kept earlier ones, a slide iff k is in the second column |
| Paint.Painter.AnimationEnd | src/paint/Paint.tsx:167-169 | the button's jumping flag is cleared and the others are kept |
| Paint.Painter.MusicKeys | src/paint/Paint.tsx:129-176 | the 32 buttons, row by row, each with its position, picture and jumping state |
| Paint.Painter.Render | src/paint/Paint.tsx:114-119 | one animation frame draws every effect once and keeps exactly the ones still active, in order |

## Left out

- Canvas drawing calls (save/restore, transforms, `drawImage`, the white fills): each draw returns the values it would pass to the canvas instead of painting.
- `Math.atan2` and `Math.sqrt`: the pointer angle is a parameter of the hue computation, and the square's radius is carried in the wheel record, pinned down by 2 * SQUARE_RADIUS^2 = RADIUS_INSIDE^2.
- `Math.random` and the `random(a, b)` helper: the two random numbers a slide uses are parameters. The random coefficients inside the motion curves are left to the curves.
- The bodies of the 140 motion curves (five for each of the 28 motion keys): a draw takes one sampled value per curve (`CurveSample`), and all the stamps of one frame share it.
- MusicEffects.CustomImageMotionEffect.Draw: all stamps of one frame share one curve sample. The source evaluates the curves once per stamp at the same progress, so the two differ only for curves that draw fresh random numbers.
- Audio playback and the `mikuSounds` asset lookup: a note returns the name of its sound file.
- The `ctx.filter` string formatting of the motion effect: the filter triple is kept as numbers.
- `requestAnimationFrame`, event-listener registration and removal, and React re-rendering: each handler is a method, and one call to `Render` is one frame.
- The `isDrawing` and `drawingArr` locals that React re-initialises on every render, and the stale closures over them: the model keeps them as fields across calls.
- The white fill run by the `drawTip` effect: it is the `whiteFill` result of the methods that hide the tip.
- Floating-point rounding, NaN and Infinity: numbers are exact reals.
- Paint.Painter.MouseMove: requires a displayed canvas of positive width and height, where the source would divide by zero.
- Paint.ToLower: lower-cases ASCII letters only; JavaScript's Unicode case mapping is not modelled.
- MusicEffects.CustomImageMotionEffect.constructor: requires time > 0 and frequency >= 0. Every table entry meets this (`TableMotionsConstructible`), and the source never builds any other.
- The order of `Object.values` when building `INDEX_TO_CONFIG`: entries are visited in table order. No key repeats (`KeysDistinct`), so every written entry is a value of the object, and slot i gets entry i whatever the order.
- The `undefined` picture of a button index of 32 or more: only the 32 buttons the page builds are modelled.
- The button's display attributes (CSS class, width 9, height 21) and the sidebar and picker layout.
- The colour wheel's own drawing (ring gradient, square gradient, hue tip) and its current-colour swatch, apart from the saturation/value tip position.
