/**
 The state of one countdown widget and the pure operations on it: the public
 setters, the caption logic of a redraw, the body of the animation update
 listener and the sweep angle of the progress arc.
 */
module CountdownView {
  import opened Wrappers
  import opened JavaInts
  import opened CountdownLabel

  /** Identity of a registered listener object; what its callback does is outside the model. */
  type ListenerId = nat

  /** Every field the widget's logic reads or writes. */
  datatype State = State(
    bgColor: Int32,
    progressColor: Int32,
    progressLightColor: Int32,
    textColor: Int32,
    textSize: real,
    /** `None` is a null centre text. */
    centerText: Option<string>,
    /** Current progress, 0 to 100. */
    progress: int,
    /** Countdown length in milliseconds. */
    duration: Long,
    /** The surplus (remaining) time in milliseconds. */
    remaining: Long,
    /** Interval mode: the caption is recomputed from the remaining time on every draw. */
    showInterval: bool,
    listener: Option<ListenerId>)

  const DefaultProgressColor: Int32 := Int32Of(0xFFEEEEEE)
  const DefaultProgressLightColor: Int32 := Int32Of(0xFFFF0000)
  const DefaultTextColor: Int32 := Int32Of(0xFF212121)
  const DefaultBgColor: Int32 := Int32Of(0xFFFFFFFF)
  const DefaultTextSize: real := 12.0
  const DefaultDuration: Long := 3000

  /** The field initialisers: empty caption in interval mode, 3000 ms, no listener. */
  function Initial(): (s: State)
    ensures s.showInterval && s.centerText == Some("")
    ensures s.duration == s.remaining == 3000
    ensures s.progress == 0 && s.listener == None
  {
    State(DefaultBgColor, DefaultProgressColor, DefaultProgressLightColor, DefaultTextColor,
          DefaultTextSize, Some(""), 0, DefaultDuration, DefaultDuration, true, None)
  }

  /** The layout attributes, already resolved to their values or their defaults. */
  datatype Attrs = Attrs(
    durationMs: Long,
    progressColor: Int32,
    progressLightColor: Int32,
    centerText: Option<string>,
    textColor: Int32,
    textSize: real)

  /**
   A freshly constructed widget, with or without layout attributes. The
   attributes set the duration but not the remaining time, which keeps the
   3000 of its field initialiser; a centre text attribute leaves interval mode.
   */
  function Create(attrs: Option<Attrs>): (s: State)
    ensures s.remaining == 3000 && s.progress == 0 && s.listener == None
    ensures attrs.None? ==> s == Initial()
    ensures attrs.Some? ==> s.duration == attrs.value.durationMs
    ensures attrs.Some? && attrs.value.centerText.Some? ==> !s.showInterval && s.centerText == attrs.value.centerText
    ensures (attrs.None? || attrs.value.centerText.None?) ==> s.showInterval && s.centerText == Some("")
  {
    match attrs
    case None => Initial()
    case Some(a) =>
      var s := Initial().(duration := a.durationMs, progressColor := a.progressColor,
                          progressLightColor := a.progressLightColor);
      var s := if a.centerText.Some? then s.(centerText := a.centerText, showInterval := false) else s;
      s.(textColor := a.textColor, textSize := a.textSize)
  }

  // ---------------------------------------------------------------------------
  // A field-by-field view of the state, to say which fields an operation changes.

  datatype Field =
    | BgColor | ProgressColor | ProgressLightColor | TextColor | TextSize
    | CenterText | Progress | Duration | Remaining | ShowInterval | Listener

  datatype Value =
    | IntValue(i: int)
    | RealValue(r: real)
    | TextValue(t: Option<string>)
    | BoolValue(b: bool)
    | ListenerValue(l: Option<ListenerId>)

  function Get(s: State, f: Field): Value {
    match f
    case BgColor => IntValue(s.bgColor)
    case ProgressColor => IntValue(s.progressColor)
    case ProgressLightColor => IntValue(s.progressLightColor)
    case TextColor => IntValue(s.textColor)
    case TextSize => RealValue(s.textSize)
    case CenterText => TextValue(s.centerText)
    case Progress => IntValue(s.progress)
    case Duration => IntValue(s.duration)
    case Remaining => IntValue(s.remaining)
    case ShowInterval => BoolValue(s.showInterval)
    case Listener => ListenerValue(s.listener)
  }

  /** `s` and `t` agree on every field outside `changed`. */
  ghost predicate AgreeOutside(s: State, t: State, changed: set<Field>) {
    forall f :: f !in changed ==> Get(s, f) == Get(t, f)
  }

  /** The field view is complete: states that agree on every field are equal. */
  lemma FieldsDetermineState(s: State, t: State)
    requires AgreeOutside(s, t, {})
    ensures s == t
  {
    assert Get(s, BgColor) == Get(t, BgColor);
    assert Get(s, ProgressColor) == Get(t, ProgressColor);
    assert Get(s, ProgressLightColor) == Get(t, ProgressLightColor);
    assert Get(s, TextColor) == Get(t, TextColor);
    assert Get(s, TextSize) == Get(t, TextSize);
    assert Get(s, CenterText) == Get(t, CenterText);
    assert Get(s, Progress) == Get(t, Progress);
    assert Get(s, Duration) == Get(t, Duration);
    assert Get(s, Remaining) == Get(t, Remaining);
    assert Get(s, ShowInterval) == Get(t, ShowInterval);
    assert Get(s, Listener) == Get(t, Listener);
  }

  // ---------------------------------------------------------------------------
  // Setters: each writes its own field and nothing else.

  /** Sets the duration; the remaining time is not reset. */
  function SetDuration(s: State, duration: Long): (r: State)
    ensures r.duration == duration && r.remaining == s.remaining
    ensures AgreeOutside(s, r, {Duration})
  {
    s.(duration := duration)
  }

  function SetProgressColor(s: State, color: Int32): (r: State)
    ensures r.progressColor == color
    ensures AgreeOutside(s, r, {ProgressColor})
  {
    s.(progressColor := color)
  }

  function SetProgressLightColor(s: State, color: Int32): (r: State)
    ensures r.progressLightColor == color
    ensures AgreeOutside(s, r, {ProgressLightColor})
  {
    s.(progressLightColor := color)
  }

  /** Stores a fixed caption and leaves interval mode; `None` stores a null caption. */
  function SetText(s: State, text: Option<string>): (r: State)
    ensures r.centerText == text && !r.showInterval
    ensures AgreeOutside(s, r, {CenterText, ShowInterval})
  {
    s.(centerText := text, showInterval := false)
  }

  function SetTextColor(s: State, color: Int32): (r: State)
    ensures r.textColor == color
    ensures AgreeOutside(s, r, {TextColor})
  {
    s.(textColor := color)
  }

  /** Stores a text size already converted from sp to whole pixels. */
  function SetTextSize(s: State, px: int): (r: State)
    ensures r.textSize == px as real
    ensures AgreeOutside(s, r, {TextSize})
  {
    s.(textSize := px as real)
  }

  function SetBgColor(s: State, color: Int32): (r: State)
    ensures r.bgColor == color
    ensures AgreeOutside(s, r, {BgColor})
  {
    s.(bgColor := color)
  }

  function SetCountdownListener(s: State, listener: Option<ListenerId>): (r: State)
    ensures r.listener == listener
    ensures AgreeOutside(s, r, {Listener})
  {
    s.(listener := listener)
  }

  // ---------------------------------------------------------------------------
  // Redraw.

  /**
   The state changes a redraw makes before painting: a null caption forces
   interval mode, and interval mode writes the countdown label into the
   caption.
   */
  function Draw(s: State): (r: State)
    ensures r.showInterval <==> s.showInterval || s.centerText.None?
    ensures r.showInterval ==> r.centerText == Some(Label(s.remaining, s.duration))
    ensures !r.showInterval ==> r.centerText == s.centerText
    ensures r.centerText.Some?
    ensures AgreeOutside(s, r, {CenterText, ShowInterval})
  {
    var s := if s.centerText == None then s.(showInterval := true) else s;
    if s.showInterval then s.(centerText := Some(Label(s.remaining, s.duration))) else s
  }

  /**
   The caption a redraw paints: the countdown label in interval mode or with
   a null caption, the fixed caption otherwise.
   */
  function Caption(s: State): (c: string)
    ensures s.showInterval || s.centerText.None? ==> c == Label(s.remaining, s.duration)
    ensures !s.showInterval && s.centerText.Some? ==> c == s.centerText.value
  {
    Draw(s).centerText.value
  }

  /** Redrawing twice changes nothing the first redraw did not. */
  lemma DrawIdempotent(s: State)
    ensures Draw(Draw(s)) == Draw(s)
  {
  }

  /** After `setText(t)` with a non-null `t`, a redraw keeps `t` and stays out of interval mode. */
  lemma SetTextThenDraw(s: State, t: string)
    ensures Draw(SetText(s, Some(t))) == SetText(s, Some(t))
    ensures Caption(SetText(s, Some(t))) == t
  {
  }

  /** After a null `setText`, a redraw returns to interval mode and paints the countdown label. */
  lemma NullTextRestoresCountdown(s: State)
    ensures Draw(SetText(s, None)).showInterval
    ensures Caption(SetText(s, None)) == Label(s.remaining, s.duration)
  {
  }

  // ---------------------------------------------------------------------------
  // Animation update.

  /** One update from the animator: its animated value and its current play time. */
  datatype Frame = Frame(animatedValue: int, playTime: Long)

  /** The animator runs from 0 to 100, so every animated value lies in that range. */
  predicate ValidFrame(f: Frame) {
    0 <= f.animatedValue <= 100
  }

  /** One call `onProgressListener(progress, isFinish)` to the listener `listener`. */
  datatype Notification = Notification(listener: ListenerId, progress: int, isFinish: bool)

  /**
   The update listener's body: progress takes the animated value, the
   remaining time becomes duration minus play time (as a Java `long`), and a
   registered listener is told the progress and whether it reached 100.
   */
  function Tick(s: State, f: Frame): (r: (State, Option<Notification>))
    requires ValidFrame(f)
    ensures r.0.progress == f.animatedValue && 0 <= r.0.progress <= 100
    ensures r.0.remaining == WrapLong(s.duration - f.playTime)
    ensures AgreeOutside(s, r.0, {Progress, Remaining})
    ensures r.1.Some? <==> s.listener.Some?
    ensures r.1.Some? ==> r.1.value.listener == s.listener.value && r.1.value.progress == f.animatedValue
    ensures r.1.Some? ==> (r.1.value.isFinish <==> f.animatedValue == 100)
  {
    var s' := s.(progress := f.animatedValue, remaining := WrapLong(s.duration - f.playTime));
    var call := if s'.listener.Some? then Some(Notification(s'.listener.value, s'.progress, s'.progress == 100)) else None;
    (s', call)
  }

  /** Within the range of a `long`, the remaining time after a tick is exactly duration minus play time. */
  lemma TickRemaining(s: State, f: Frame)
    requires ValidFrame(f)
    requires LongMin <= s.duration - f.playTime <= LongMax
    ensures Tick(s, f).0.remaining == s.duration - f.playTime
  {
  }

  /** The sweep of the progress arc in degrees, in exact arithmetic. */
  function Sweep(progress: int): (deg: real)
    ensures 0 <= progress <= 100 ==> 0.0 <= deg <= 360.0
    ensures deg == 360.0 <==> progress == 100
    ensures deg == 0.0 <==> progress == 0
  {
    progress as real / 100.0 * 360.0
  }
}
