/**
 The widget driven by any sequence of public calls, redraws and animation
 frames, and what holds across such a sequence.
 */
module Lifecycle {
  import opened Wrappers
  import opened JavaInts
  import opened CountdownLabel
  import V = CountdownView

  /** One thing that can happen to a widget. */
  datatype Op =
    | SetDuration(duration: Long)
    | SetProgressColor(color: Int32)
    | SetProgressLightColor(color: Int32)
    | SetText(text: Option<string>)
    | SetTextColor(color: Int32)
    | SetTextSize(px: int)
    | SetBgColor(color: Int32)
    | SetCountdownListener(listener: Option<V.ListenerId>)
    | Draw
    | Tick(frame: V.Frame)

  predicate ValidOp(op: Op) {
    op.Tick? ==> V.ValidFrame(op.frame)
  }

  predicate ValidOps(ops: seq<Op>) {
    forall i :: 0 <= i < |ops| ==> ValidOp(ops[i])
  }

  /** One public call, redraw or animation frame applied to the widget. */
  function Step(s: V.State, op: Op): (r: V.State)
    requires ValidOp(op)
    ensures Inv(s) ==> Inv(r)
    ensures !op.SetText? && !s.showInterval && s.centerText.Some? ==> !r.showInterval && r.centerText == s.centerText
    ensures op.Tick? ==> r.progress == op.frame.animatedValue
    ensures !op.Tick? ==> r.progress == s.progress && r.remaining == s.remaining
  {
    match op
    case SetDuration(d) => V.SetDuration(s, d)
    case SetProgressColor(c) => V.SetProgressColor(s, c)
    case SetProgressLightColor(c) => V.SetProgressLightColor(s, c)
    case SetText(t) => V.SetText(s, t)
    case SetTextColor(c) => V.SetTextColor(s, c)
    case SetTextSize(px) => V.SetTextSize(s, px)
    case SetBgColor(c) => V.SetBgColor(s, c)
    case SetCountdownListener(l) => V.SetCountdownListener(s, l)
    case Draw => V.Draw(s)
    case Tick(f) => V.Tick(s, f).0
  }

  function Run(s: V.State, ops: seq<Op>): V.State
    requires ValidOps(ops)
    decreases |ops|
  {
    if |ops| == 0 then s else Run(Step(s, ops[0]), ops[1..])
  }

  /** The state invariant: progress stays within 0 to 100. */
  predicate Inv(s: V.State) {
    0 <= s.progress <= 100
  }

  /** Every step keeps progress within 0 to 100. */
  lemma StepPreservesInv(s: V.State, op: Op)
    requires Inv(s) && ValidOp(op)
    ensures Inv(Step(s, op))
  {
  }

  /** Any sequence of valid operations from a state within the invariant keeps progress within 0 to 100. */
  lemma {:induction false} RunPreservesInv(s: V.State, ops: seq<Op>)
    requires Inv(s) && ValidOps(ops)
    ensures Inv(Run(s, ops))
    decreases |ops|
  {
    if |ops| > 0 {
      StepPreservesInv(s, ops[0]);
      RunPreservesInv(Step(s, ops[0]), ops[1..]);
    }
  }

  lemma CreatedSatisfiesInv(attrs: Option<V.Attrs>)
    ensures Inv(V.Create(attrs))
  {
  }

  /** A constructed widget keeps progress within 0 to 100 whatever happens to it afterwards. */
  lemma ConstructedWidgetKeepsInv(attrs: Option<V.Attrs>, ops: seq<Op>)
    requires ValidOps(ops)
    ensures Inv(Run(V.Create(attrs), ops))
  {
    CreatedSatisfiesInv(attrs);
    RunPreservesInv(V.Create(attrs), ops);
  }

  /** A fixed caption survives every step except `setText`. */
  lemma StepKeepsFixedText(s: V.State, t: string, op: Op)
    requires !s.showInterval && s.centerText == Some(t)
    requires ValidOp(op) && !op.SetText?
    ensures !Step(s, op).showInterval && Step(s, op).centerText == Some(t)
  {
  }

  /**
   Once a fixed caption is set, every later redraw paints it, whatever the
   progress, until `setText` is called again.
   */
  lemma {:induction false} FixedTextSticks(s: V.State, t: string, ops: seq<Op>)
    requires !s.showInterval && s.centerText == Some(t)
    requires ValidOps(ops)
    requires forall i :: 0 <= i < |ops| ==> !ops[i].SetText?
    ensures !Run(s, ops).showInterval && Run(s, ops).centerText == Some(t)
    ensures V.Caption(Run(s, ops)) == t
    decreases |ops|
  {
    if |ops| > 0 {
      StepKeepsFixedText(s, t, ops[0]);
      FixedTextSticks(Step(s, ops[0]), t, ops[1..]);
    }
  }

  /** In interval mode every redraw shows the label for the remaining time at that moment. */
  lemma {:induction false} IntervalModeSticks(s: V.State, ops: seq<Op>)
    requires s.showInterval
    requires ValidOps(ops)
    requires forall i :: 0 <= i < |ops| ==> !ops[i].SetText?
    ensures Run(s, ops).showInterval
    ensures V.Caption(Run(s, ops)) == Label(Run(s, ops).remaining, Run(s, ops).duration)
    decreases |ops|
  {
    if |ops| > 0 {
      var r := Step(s, ops[0]);
      assert V.Get(s, V.ShowInterval) == V.Get(r, V.ShowInterval);
      IntervalModeSticks(r, ops[1..]);
    }
  }

  /**
   From the defaults, `setDuration(5000)` does not reset the remaining 3000 ms,
   so the next redraw shows "4s" rather than "5s"; before it the caption is "3s".
   */
  lemma SetDurationKeepsRemaining()
    ensures V.Caption(V.Initial()) == "3s"
    ensures V.Caption(Run(V.Initial(), [SetDuration(5000)])) == "4s"
  {
  }

  /** A duration attribute likewise leaves the remaining time at 3000 ms. */
  lemma DurationAttrKeepsRemaining(a: V.Attrs)
    requires a.centerText.None? && a.durationMs == 5000
    ensures V.Caption(V.Create(Some(a))) == "4s"
  {
  }

  /** A widget given a fixed caption, driven to completion, still shows that caption and reports finish. */
  lemma SkipScenario(l: V.ListenerId)
    ensures var s := V.SetCountdownListener(V.SetText(V.SetDuration(V.Initial(), 5000), Some("Skip")), Some(l));
      && V.Caption(Run(s, [Tick(V.Frame(50, 2500)), Draw, Tick(V.Frame(100, 5000)), Draw])) == "Skip"
      && V.Tick(V.Tick(s, V.Frame(50, 2500)).0, V.Frame(100, 5000)).1 == Some(V.Notification(l, 100, true))
  {
    var s := V.SetCountdownListener(V.SetText(V.SetDuration(V.Initial(), 5000), Some("Skip")), Some(l));
    FixedTextSticks(s, "Skip", [Tick(V.Frame(50, 2500)), Draw, Tick(V.Frame(100, 5000)), Draw]);
  }

  /** Clearing the caption mid-countdown brings back the label: 2500 ms left of 5000 shows "3s". */
  lemma ClearTextScenario()
    ensures var s := V.Tick(V.SetText(V.SetDuration(V.Initial(), 5000), Some("Skip")), V.Frame(50, 2500)).0;
      V.Caption(V.SetText(s, None)) == "3s"
  {
  }
}
