/**
 `onMeasure`: the widget asks for a square. Each axis takes the size of its
 measure spec when the mode is EXACTLY and a default (50dp, converted to
 pixels by the caller) otherwise; if the two differ both become the larger.
 */
module Measure {

  /** The three modes of a layout measure spec. */
  datatype Mode = Unspecified | AtMost | Exactly

  /** A measure spec, already split into its mode and its size in pixels. */
  datatype MeasureSpec = MeasureSpec(mode: Mode, size: nat)

  datatype Dimensions = Dimensions(width: nat, height: nat)

  function Max(a: nat, b: nat): nat {
    if a >= b then a else b
  }

  /** The size one axis asks for on its own, before the two axes are equalised. */
  function Candidate(spec: MeasureSpec, defaultSize: nat): nat {
    if spec.mode == Exactly then spec.size else defaultSize
  }

  /**
   The rule as written: mode and size of the height axis are both read from
   the width spec, so `heightSpec` has no effect and the equalising branch
   never fires.
   */
  function MeasureAsWritten(widthSpec: MeasureSpec, heightSpec: MeasureSpec, defaultSize: nat): (d: Dimensions)
    ensures d.width == d.height
    ensures d.width == Candidate(widthSpec, defaultSize)
  {
    var widthMode := widthSpec.mode;
    var heightMode := widthSpec.mode;
    var width: nat := if widthMode != Exactly then defaultSize else widthSpec.size;
    var height: nat := if heightMode != Exactly then defaultSize else widthSpec.size;
    if width != height then Dimensions(Max(width, height), Max(width, height))
    else Dimensions(width, height)
  }

  /** The rule as evidently intended: the height axis reads its own spec. */
  function MeasureCorrected(widthSpec: MeasureSpec, heightSpec: MeasureSpec, defaultSize: nat): (d: Dimensions)
    ensures d.width == d.height
    ensures d.width >= Candidate(widthSpec, defaultSize)
    ensures d.width >= Candidate(heightSpec, defaultSize)
    ensures d.width == Candidate(widthSpec, defaultSize) || d.width == Candidate(heightSpec, defaultSize)
  {
    var width: nat := if widthSpec.mode != Exactly then defaultSize else widthSpec.size;
    var height: nat := if heightSpec.mode != Exactly then defaultSize else heightSpec.size;
    if width != height then Dimensions(Max(width, height), Max(width, height))
    else Dimensions(width, height)
  }

  /** As written, the measured size does not depend on the height spec at all. */
  lemma MeasureAsWrittenIgnoresHeight(widthSpec: MeasureSpec, h1: MeasureSpec, h2: MeasureSpec, defaultSize: nat)
    ensures MeasureAsWritten(widthSpec, h1, defaultSize) == MeasureAsWritten(widthSpec, h2, defaultSize)
  {
  }

  /** Width EXACTLY 120 with a flexible height measures 120 by 120, whatever the default. */
  lemma MeasureExactWidthExample(heightSpec: MeasureSpec, defaultSize: nat)
    requires heightSpec.mode != Exactly
    ensures MeasureAsWritten(MeasureSpec(Exactly, 120), heightSpec, defaultSize) == Dimensions(120, 120)
  {
  }

  /**
   The discrepancy: both axes EXACTLY, width 120 and height 200. As written the
   exact height is dropped and the view measures 120 by 120; the corrected rule
   gives 200 by 200.
   */
  lemma MeasureAsWrittenDropsExactHeight()
    ensures MeasureAsWritten(MeasureSpec(Exactly, 120), MeasureSpec(Exactly, 200), 150) == Dimensions(120, 120)
    ensures MeasureCorrected(MeasureSpec(Exactly, 120), MeasureSpec(Exactly, 200), 150) == Dimensions(200, 200)
  {
  }

  /** The two rules agree whenever the height spec equals the width spec. */
  lemma MeasureAgreeOnEqualSpecs(spec: MeasureSpec, other: MeasureSpec, defaultSize: nat)
    ensures MeasureCorrected(spec, spec, defaultSize) == MeasureAsWritten(spec, other, defaultSize)
  {
  }
}
