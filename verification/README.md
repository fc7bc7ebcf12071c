# CountdownView — a Dafny model of the countdown widget's logic

`CountdownView` is an Android view that draws a circular countdown: a ring
whose highlighted arc grows from 0 to 100 percent over a configurable
duration, a caption in the centre, and a listener that is told the progress
on every animation frame. This project models the integer and state logic of
that widget, with the canvas and the animator stripped away:

- the centre caption computed on every redraw in interval mode: whole seconds
  of the surplus (remaining) time, one more once the countdown has moved off
  its starting value, "0" once time has run out, followed by `s`
  (`CountdownLabel`, over decimal numerals in `Decimal`);
- the display-mode state machine between a fixed caption set by `setText` and
  interval mode, including the null-caption fallback (`CountdownView.Draw`);
- the square measurement rule of `onMeasure` (`Measure`);
- the body of the animator's update listener: progress, remaining time and the
  listener call (`CountdownView.Tick`, replayed over many frames in `Animation`);
- the public setters, each of which changes only its own field;
- any sequence of the above, and what holds across it (`Lifecycle`).

The widget is an immutable record `CountdownView.State`; every operation is a
pure function from state to state. Java `int` and `long` are modelled as
bounded integer types (`JavaInts`); the one `long` subtraction wraps as Java
does, and `long` division truncates toward zero. A null Java reference is
`None`.

Behaviour of the code worth knowing:

- While running, the caption is `remaining / 1000 + 1`. That is the ceiling
  of the remaining seconds except on a whole number of seconds, where it is
  one more: 2000 ms left shows `3s`. `CountdownLabel.SecondsVersusCeiling`
  states this exactly.
- `start()` creates a new animator each time and never cancels an earlier
  one. Frames of two animators can interleave, and the last delivered frame
  decides the progress (`Animation.StaleFrameOverwritesRestart`).
- The caption can be cleared only by passing null to `setText`. The null
  check in `onDraw` then restores interval mode.
- `setDuration`, and the duration attribute, do not reset the remaining time.
  It keeps its 3000 ms initial value until the first frame.

## Model

| member | source | states |
|---|---|---|
| JavaInts.Int32Of | library/src/main/java/com/lk/library/CountdownView.java:28-31 | a 32-bit colour literal denotes the `int` congruent to it modulo 2^32, negative exactly when its top bit is set |
| JavaInts.WrapLong | library/src/main/java/com/lk/library/CountdownView.java:226 | `long` arithmetic yields a value in the `long` range congruent to the exact result modulo 2^64 |
| JavaInts.WrapLongInRange | library/src/main/java/com/lk/library/CountdownView.java:226 | a result that fits in a `long` is not changed by wrapping |
| JavaInts.DivTruncNonNegative | library/src/main/java/com/lk/library/CountdownView.java:149 | on a positive surplus Java's division agrees with floor division, so the caption number is the whole seconds left |
| JavaInts.DivTrunc | library/src/main/java/com/lk/library/CountdownView.java:149 | `long` division leaves a remainder with the sign of the dividend and smaller than the divisor in magnitude |
| Decimal.Digits | library/src/main/java/com/lk/library/CountdownView.java:149 | `String.valueOf` of a non-negative number is non-empty, all digits, without a leading zero, one character exactly below ten |
| Decimal.ValueOfDigits | library/src/main/java/com/lk/library/CountdownView.java:149 | reading a printed number back gives the number |
| Decimal.DigitsOfValue | library/src/main/java/com/lk/library/CountdownView.java:149 | every canonical numeral is the printed form of its value |
| Decimal.DigitsInjective | library/src/main/java/com/lk/library/CountdownView.java:149 | two numbers print the same exactly when they are equal |
| CountdownLabel.Seconds | library/src/main/java/com/lk/library/CountdownView.java:149-155 | the caption number is 0 once the surplus is zero or negative, surplus/1000 when the surplus equals the duration, and surplus/1000 + 1 otherwise; SecondsBeforeStart, SecondsRunning, LabelFinished and SecondsVersusCeiling state the same cases separately |
| CountdownLabel.Label | library/src/main/java/com/lk/library/CountdownView.java:149-155 | the caption is a canonical decimal numeral whose value is the caption number, followed by "s" |
| CountdownLabel.SecondsBeforeStart | library/src/main/java/com/lk/library/CountdownView.java:149-150 | when the surplus equals a positive duration the caption number is duration/1000, with no second added |
| CountdownLabel.SecondsRunning | library/src/main/java/com/lk/library/CountdownView.java:149-150 | with time left and remaining different from duration the number is remaining/1000 + 1 |
| CountdownLabel.LabelFinished | library/src/main/java/com/lk/library/CountdownView.java:151-155 | once remaining is zero or negative the caption is exactly "0s" |
| CountdownLabel.SecondsVersusCeiling | library/src/main/java/com/lk/library/CountdownView.java:149-150 | while running, the number equals the rounded-up seconds if and only if remaining is not a multiple of 1000, and is one more otherwise |
| CountdownLabel.LabelRoundTrip | library/src/main/java/com/lk/library/CountdownView.java:149-155 | every caption is a numeral followed by "s" that parses back to the number shown |
| CountdownLabel.ParseLabelSound | library/src/main/java/com/lk/library/CountdownView.java:149-155 | a text that parses to the shown number is exactly the caption |
| CountdownLabel.LabelInjective | library/src/main/java/com/lk/library/CountdownView.java:149-155 | two states have the same caption if and only if they show the same number |
| CountdownLabel.LabelExamples | library/src/main/java/com/lk/library/CountdownView.java:149-155 | 3000 of 3000 shows "3s", 2500 of 5000 "3s", 3000 of 5000 "4s", 0 or less "0s" |
| Measure.MeasureAsWritten | library/src/main/java/com/lk/library/CountdownView.java:108-127 | the measured view is square and its side is the width spec's size if that spec is EXACTLY, the default otherwise |
| Measure.MeasureCorrected | library/src/main/java/com/lk/library/CountdownView.java:115-126 | with each axis read from its own spec, the side is square and the larger of the two axis candidates |
| Measure.MeasureAsWrittenIgnoresHeight | library/src/main/java/com/lk/library/CountdownView.java:110-113 | the height spec has no effect on the measured size |
| Measure.MeasureExactWidthExample | library/src/main/java/com/lk/library/CountdownView.java:110-126 | width EXACTLY 120 with a flexible height measures 120 by 120 |
| Measure.MeasureAsWrittenDropsExactHeight | library/src/main/java/com/lk/library/CountdownView.java:112-113 | width EXACTLY 120 and height EXACTLY 200 measures 120 by 120 as written, 200 by 200 corrected |
| Measure.MeasureAgreeOnEqualSpecs | library/src/main/java/com/lk/library/CountdownView.java:110-126 | the two rules agree whenever the height spec equals the width spec |
| CountdownView.Initial | library/src/main/java/com/lk/library/CountdownView.java:45-53 | a new widget is in interval mode with an empty caption, 3000 ms duration and remaining, progress 0, no listener |
| CountdownView.Create | library/src/main/java/com/lk/library/CountdownView.java:57-88 | attributes set the duration but leave remaining at 3000; a centre-text attribute sets the caption and leaves interval mode |
| CountdownView.FieldsDetermineState | library/src/main/java/com/lk/library/CountdownView.java:33-55 | the field view used by the frame conditions covers the whole state |
| CountdownView.SetDuration | library/src/main/java/com/lk/library/CountdownView.java:241-243 | sets the duration only; in particular remaining is not reset |
| CountdownView.SetProgressColor | library/src/main/java/com/lk/library/CountdownView.java:250-252 | sets the ring colour and no other field |
| CountdownView.SetProgressLightColor | library/src/main/java/com/lk/library/CountdownView.java:259-261 | sets the arc colour and no other field |
| CountdownView.SetText | library/src/main/java/com/lk/library/CountdownView.java:268-271 | stores the caption, leaves interval mode, changes nothing else |
| CountdownView.SetTextColor | library/src/main/java/com/lk/library/CountdownView.java:278-280 | sets the text colour and no other field |
| CountdownView.SetTextSize | library/src/main/java/com/lk/library/CountdownView.java:287-289 | stores the converted pixel size and no other field |
| CountdownView.SetBgColor | library/src/main/java/com/lk/library/CountdownView.java:291-293 | sets the background colour and no other field |
| CountdownView.SetCountdownListener | library/src/main/java/com/lk/library/CountdownView.java:300-302 | sets the listener and no other field |
| CountdownView.Draw | library/src/main/java/com/lk/library/CountdownView.java:142-156 | after a redraw interval mode is on iff it was on or the caption was null; in interval mode the caption is the countdown label, otherwise unchanged; the caption is never null; nothing else changes |
| CountdownView.DrawIdempotent | library/src/main/java/com/lk/library/CountdownView.java:142-156 | a second redraw without other events changes nothing |
| CountdownView.Caption | library/src/main/java/com/lk/library/CountdownView.java:143-160 | the painted caption is the countdown label in interval mode or with a null caption, the fixed caption otherwise |
| CountdownView.SetTextThenDraw | library/src/main/java/com/lk/library/CountdownView.java:268-271 | after setText with a non-null text a redraw leaves the state as it is and paints that text |
| CountdownView.NullTextRestoresCountdown | library/src/main/java/com/lk/library/CountdownView.java:143-145 | after setText(null) a redraw turns interval mode back on and paints the countdown label |
| CountdownView.Tick | library/src/main/java/com/lk/library/CountdownView.java:224-231 | a frame sets progress to the animated value (so within 0 to 100) and remaining to duration minus play time as a `long`; the listener is called iff one is set, with the progress and finish iff progress is 100; nothing else changes |
| CountdownView.TickRemaining | library/src/main/java/com/lk/library/CountdownView.java:226 | without overflow, remaining after a frame is exactly duration minus play time |
| CountdownView.Sweep | library/src/main/java/com/lk/library/CountdownView.java:186 | the arc sweep lies in 0 to 360 degrees for progress in range, is 360 iff progress is 100 and 0 iff progress is 0 |
| Animation.AnimateState | library/src/main/java/com/lk/library/CountdownView.java:224-231 | over a run of frames only progress and remaining change, and the last frame decides both |
| Animation.AnimateCalls | library/src/main/java/com/lk/library/CountdownView.java:225-229 | with a listener there is one call per frame carrying its value and finish iff the value is 100; without one there are none |
| Animation.PlayFrames | library/src/main/java/com/lk/library/CountdownView.java:218-234 | replaying frames in a loop gives the reference run: one call per frame when a listener is set, progress of the last frame, duration, listener and caption untouched |
| Animation.ReportedProgressMonotone | library/src/main/java/com/lk/library/CountdownView.java:225-229 | non-decreasing animated values give non-decreasing reported progress |
| Animation.LastCallReportsFinish | library/src/main/java/com/lk/library/CountdownView.java:228 | the last call reports finish iff the last frame reached 100 |
| Animation.StaleFrameOverwritesRestart | library/src/main/java/com/lk/library/CountdownView.java:214-234 | nothing cancels an earlier animator: with 3000 ms, frames 80 at 2400 ms (first animator), 10 at 300 ms (second), 82 at 2460 ms (first) leave progress at the stale 82 and report 80, 10, 82 |
| Lifecycle.Step | library/src/main/java/com/lk/library/CountdownView.java:224-302 | one call, redraw or frame keeps progress within 0 to 100; only a frame changes progress and remaining; only setText disturbs a fixed caption |
| Lifecycle.StepPreservesInv | library/src/main/java/com/lk/library/CountdownView.java:219-225 | every operation keeps progress within 0 to 100 |
| Lifecycle.RunPreservesInv | library/src/main/java/com/lk/library/CountdownView.java:219-225 | any sequence of operations keeps progress within 0 to 100 |
| Lifecycle.CreatedSatisfiesInv | library/src/main/java/com/lk/library/CountdownView.java:49 | a constructed widget starts with progress 0, inside the invariant |
| Lifecycle.ConstructedWidgetKeepsInv | library/src/main/java/com/lk/library/CountdownView.java:49 | a constructed widget keeps progress within 0 to 100 after any sequence of operations |
| Lifecycle.StepKeepsFixedText | library/src/main/java/com/lk/library/CountdownView.java:241-302 | no operation other than setText disturbs a fixed caption |
| Lifecycle.FixedTextSticks | library/src/main/java/com/lk/library/CountdownView.java:268-271 | once a fixed caption is set, every later redraw paints it until setText is called again |
| Lifecycle.IntervalModeSticks | library/src/main/java/com/lk/library/CountdownView.java:147-156 | in interval mode, without setText, the caption always shows the label for the current remaining time |
| Lifecycle.SetDurationKeepsRemaining | library/src/main/java/com/lk/library/CountdownView.java:50-51 | a new widget shows "3s"; after setDuration(5000) it shows "4s", not "5s" |
| Lifecycle.DurationAttrKeepsRemaining | library/src/main/java/com/lk/library/CountdownView.java:77 | a 5000 ms duration attribute likewise shows "4s" before the first frame |
| Lifecycle.SkipScenario | app/src/main/java/com/lk/countdownview/MainActivity.java:30-43 | with a fixed caption and a listener, frames to 100 keep the caption and the last call reports finish |
| Lifecycle.ClearTextScenario | library/src/main/java/com/lk/library/CountdownView.java:143-156 | clearing the caption at 2500 ms left of 5000 paints "3s" |

## Findings

| source | as written | input that shows it | evidently intended | confidence | as-written member | corrected member |
|---|---|---|---|---|---|---|
| library/src/main/java/com/lk/library/CountdownView.java:112-113 | the height mode and height size are read from `widthMeasureSpec`; `heightMeasureSpec` is only passed to `super.onMeasure` (:109), whose result the `setMeasuredDimension` call at :126 replaces | width EXACTLY 120, height EXACTLY 200: measures 120 by 120 | read the height axis from `heightMeasureSpec`, then take the larger side: 200 by 200 | not executed; high, the height spec has no effect on the result and the equalising branch can never fire as written | Measure.MeasureAsWritten (with Measure.MeasureAsWrittenDropsExactHeight) | Measure.MeasureCorrected |

Nothing else in the model consumes a measured size; both rules are kept side
by side, and `Measure.MeasureAgreeOnEqualSpecs` shows where they coincide.

## Left out

- Canvas drawing (circles, arc, save/rotate/restore, font-metric text centring): pure rendering on float coordinates through platform calls.
- `dip2px` and `sp2px`: float density scaling; their results are parameters (the default measured size, the text size in pixels).
- Layout attribute parsing (`obtainAttr`): `Create` takes the resolved attribute values; the float seconds-to-milliseconds conversion of the duration attribute is not modelled.
- `initPaint` and the stroke width `mProgressWidth`: paint configuration used only for drawing.
- The animator's timing and scheduling (`ValueAnimator`, linear interpolation, `invalidate()`): frames are explicit inputs whose animated value lies in 0 to 100, as `ofInt(0, 100)` guarantees.
- `start()`: it only creates and starts a platform animator; its effect on the state is the frames it delivers.
- What a listener does when called: the model records the calls.
- The bit packing of measure specs: a spec is given as its mode and size.
- Sweep: computed in exact real arithmetic; the float rounding of `(float) progress / 100 * 360` is not modelled.
- The demo screen (`MainActivity`): layout inflation, toasts and click handlers.
