/**
 A run of the animator: the update listener applied to a sequence of frames,
 collecting the listener calls it makes. Frames from several `start()` calls
 may be interleaved by the caller; nothing here cancels an earlier animator.
 */
module Animation {
  import opened Wrappers
  import opened JavaInts
  import opened CountdownView

  predicate ValidFrames(frames: seq<Frame>) {
    forall i :: 0 <= i < |frames| ==> ValidFrame(frames[i])
  }

  /** The calls one tick makes: none, or one. */
  function CallsOf(call: Option<Notification>): seq<Notification> {
    if call.Some? then [call.value] else []
  }

  /** Reference definition: the frames applied one after another, left to right. */
  function Animate(s: State, frames: seq<Frame>): (State, seq<Notification>)
    requires ValidFrames(frames)
    decreases |frames|
  {
    if |frames| == 0 then (s, [])
    else
      var prev := Animate(s, frames[..|frames| - 1]);
      var t := Tick(prev.0, frames[|frames| - 1]);
      (t.0, prev.1 + CallsOf(t.1))
  }

  /** Only progress and remaining time change during a run; the last frame decides both. */
  lemma {:induction false} AnimateState(s: State, frames: seq<Frame>)
    requires ValidFrames(frames)
    ensures AgreeOutside(s, Animate(s, frames).0, {Progress, Remaining})
    ensures |frames| == 0 ==> Animate(s, frames).0 == s
    ensures |frames| > 0 ==> Animate(s, frames).0.progress == frames[|frames| - 1].animatedValue
    ensures |frames| > 0 ==> Animate(s, frames).0.remaining == WrapLong(s.duration - frames[|frames| - 1].playTime)
    decreases |frames|
  {
    if |frames| > 0 {
      var prefix := frames[..|frames| - 1];
      AnimateState(s, prefix);
      var mid := Animate(s, prefix).0;
      var last := Tick(mid, frames[|frames| - 1]).0;
      assert Get(s, Duration) == Get(mid, Duration);
      forall f | f !in {Progress, Remaining}
        ensures Get(s, f) == Get(last, f)
      {
        assert Get(s, f) == Get(mid, f);
      }
    }
  }

  /** With a listener, each frame makes exactly one call carrying its value; without one, none. */
  lemma {:induction false} AnimateCalls(s: State, frames: seq<Frame>)
    requires ValidFrames(frames)
    ensures var calls := Animate(s, frames).1;
      && |calls| == (if s.listener.Some? then |frames| else 0)
      && (forall i :: 0 <= i < |calls| ==> calls[i].listener == s.listener.value)
      && (forall i :: 0 <= i < |calls| ==> calls[i].progress == frames[i].animatedValue)
      && (forall i :: 0 <= i < |calls| ==> (calls[i].isFinish <==> frames[i].animatedValue == 100))
    decreases |frames|
  {
    if |frames| > 0 {
      var prefix := frames[..|frames| - 1];
      AnimateCalls(s, prefix);
      AnimateState(s, prefix);
      var mid := Animate(s, prefix).0;
      assert Get(s, Listener) == Get(mid, Listener);
    }
  }

  /** Replays the frames with a loop, as the animator would deliver them. */
  method PlayFrames(s: State, frames: seq<Frame>) returns (r: State, calls: seq<Notification>)
    requires ValidFrames(frames)
    ensures (r, calls) == Animate(s, frames)
    ensures |calls| == (if s.listener.Some? then |frames| else 0)
    ensures forall i :: 0 <= i < |calls| ==> calls[i].progress == frames[i].animatedValue
    ensures forall i :: 0 <= i < |calls| ==> (calls[i].isFinish <==> frames[i].animatedValue == 100)
    ensures |frames| > 0 ==> r.progress == frames[|frames| - 1].animatedValue
    ensures r.duration == s.duration && r.listener == s.listener && r.centerText == s.centerText
  {
    r, calls := s, [];
    var k := 0;
    while k < |frames|
      invariant 0 <= k <= |frames|
      invariant (r, calls) == Animate(s, frames[..k])
    {
      var prefix := frames[..k + 1];
      assert prefix[..k] == frames[..k] && prefix[k] == frames[k];
      var t := Tick(r, frames[k]);
      assert Animate(s, prefix) == (t.0, calls + CallsOf(t.1));
      r := t.0;
      calls := calls + CallsOf(t.1);
      k := k + 1;
    }
    assert frames[..|frames|] == frames;
    AnimateState(s, frames);
    AnimateCalls(s, frames);
    assert Get(s, Duration) == Get(r, Duration);
    assert Get(s, Listener) == Get(r, Listener);
    assert Get(s, CenterText) == Get(r, CenterText);
  }

  /** Non-decreasing animated values give non-decreasing reported progress. */
  lemma ReportedProgressMonotone(s: State, frames: seq<Frame>)
    requires ValidFrames(frames)
    requires forall i, j :: 0 <= i <= j < |frames| ==> frames[i].animatedValue <= frames[j].animatedValue
    ensures var calls := Animate(s, frames).1;
      forall i, j :: 0 <= i <= j < |calls| ==> calls[i].progress <= calls[j].progress
  {
    AnimateCalls(s, frames);
  }

  /** With a listener, the last call reports completion exactly when the last frame reached 100. */
  lemma LastCallReportsFinish(s: State, frames: seq<Frame>)
    requires ValidFrames(frames) && |frames| > 0 && s.listener.Some?
    ensures var calls := Animate(s, frames).1;
      |calls| == |frames| && (calls[|calls| - 1].isFinish <==> frames[|frames| - 1].animatedValue == 100)
  {
    AnimateCalls(s, frames);
  }

  /**
   Nothing cancels an earlier animator and the last delivered frame wins.
   With a 3000 ms duration: the first animator delivers 80 at 2400 ms, a
   second one, started 2100 ms in, delivers 10 at 300 ms, and then the first
   delivers 82 at 2460 ms. The stale frame moves progress off the newer
   animator's 10 to 82, and the listener hears 80, 10, 82.
   */
  lemma StaleFrameOverwritesRestart(s: State)
    requires s.duration == 3000 && s.listener.Some?
    ensures var frames := [Frame(80, 2400), Frame(10, 300), Frame(82, 2460)];
      var run := Animate(s, frames);
      && run.0.progress == 82
      && run.0.remaining == 540
      && |run.1| == 3
      && run.1[0].progress == 80 && run.1[1].progress == 10 && run.1[2].progress == 82
  {
    var frames := [Frame(80, 2400), Frame(10, 300), Frame(82, 2460)];
    AnimateState(s, frames);
    AnimateCalls(s, frames);
  }
}
