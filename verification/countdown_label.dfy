/**
 The centre caption that `onDraw` computes in interval mode: whole seconds of
 the surplus (remaining) time, bumped by one once the countdown has moved off
 its starting value, forced to zero once time has run out, followed by "s".
 */
module CountdownLabel {
  import opened Wrappers
  import opened JavaInts
  import opened Decimal

  const MillisPerSecond: int := 1000
  const Suffix: char := 's'

  /**
   The number shown, for the surplus time `remaining` of a countdown of
   `duration` (both in ms): the whole seconds left, one more once the surplus
   differs from the duration, and zero once no time is left.
   */
  function Seconds(remaining: Long, duration: Long): (n: nat)
    ensures remaining <= 0 ==> n == 0
    ensures 0 < remaining && remaining == duration ==> n == remaining / 1000
    ensures 0 < remaining && remaining != duration ==> n == remaining / 1000 + 1
  {
    var computed := DivTrunc(remaining, MillisPerSecond) + (if remaining != duration then 1 else 0);
    if remaining <= 0 then 0
    else
      DivTruncNonNegative(remaining, MillisPerSecond);
      computed
  }

  /** The caption string: the canonical decimal numeral of `Seconds` followed by the suffix. */
  function Label(remaining: Long, duration: Long): (t: string)
    ensures |t| >= 2 && t[|t| - 1] == Suffix
    ensures Canonical(t[..|t| - 1]) && Value(t[..|t| - 1]) == Seconds(remaining, duration)
  {
    var n := Seconds(remaining, duration);
    ValueOfDigits(n);
    var t := Digits(n) + [Suffix];
    assert t[..|t| - 1] == Digits(n);
    t
  }

  /** Recovers the number from a caption; `None` when the text is not a caption of this form. */
  function ParseLabel(t: string): Option<nat>
  {
    if |t| >= 2 && t[|t| - 1] == Suffix && Canonical(t[..|t| - 1])
    then Some(Value(t[..|t| - 1]))
    else None
  }

  /**
   When the surplus equals the duration no second is added. Before the first
   frame that holds only while the duration is still the initial 3000 ms.
   */
  lemma SecondsBeforeStart(duration: Long)
    requires duration > 0
    ensures Seconds(duration, duration) == duration / 1000
  {
  }

  /** While time remains and the countdown has moved, one second is added to the whole seconds left. */
  lemma SecondsRunning(remaining: Long, duration: Long)
    requires 0 < remaining && remaining != duration
    ensures Seconds(remaining, duration) == remaining / 1000 + 1
  {
  }

  /** Once the surplus is zero or negative the caption is exactly "0s". */
  lemma LabelFinished(remaining: Long, duration: Long)
    requires remaining <= 0
    ensures Label(remaining, duration) == "0s"
  {
  }

  /** The number of whole seconds, rounded up, in `ms` milliseconds. */
  function CeilSeconds(ms: nat): nat {
    (ms + MillisPerSecond - 1) / MillisPerSecond
  }

  /**
   While running, the caption agrees with rounding the remaining time up to
   whole seconds exactly when the remaining time is not a whole number of
   seconds; on a whole number of seconds it shows one more.
   */
  lemma SecondsVersusCeiling(remaining: Long, duration: Long)
    requires 0 < remaining && remaining != duration
    ensures Seconds(remaining, duration) == CeilSeconds(remaining) <==> remaining % 1000 != 0
    ensures remaining % 1000 == 0 ==> Seconds(remaining, duration) == CeilSeconds(remaining) + 1
  {
  }

  /** Every caption parses back to the number it shows. */
  lemma LabelRoundTrip(remaining: Long, duration: Long)
    ensures ParseLabel(Label(remaining, duration)) == Some(Seconds(remaining, duration))
  {
  }

  /** A string that parses is the caption of the number it parses to. */
  lemma ParseLabelSound(t: string, remaining: Long, duration: Long)
    requires ParseLabel(t) == Some(Seconds(remaining, duration))
    ensures t == Label(remaining, duration)
  {
    var p := t[..|t| - 1];
    DigitsOfValue(p);
    assert t == p + [Suffix];
  }

  /** Two states show the same caption exactly when they show the same number. */
  lemma LabelInjective(r1: Long, d1: Long, r2: Long, d2: Long)
    ensures Label(r1, d1) == Label(r2, d2) <==> Seconds(r1, d1) == Seconds(r2, d2)
  {
  }

  /** Worked examples: 3000 of 3000 before start, 2500 of 5000 while running, 0 at the end. */
  lemma LabelExamples()
    ensures Label(3000, 3000) == "3s"
    ensures Label(2500, 5000) == "3s"
    ensures Label(3000, 5000) == "4s"
    ensures Label(0, 5000) == "0s"
    ensures Label(-16, 5000) == "0s"
  {
  }
}
