/** The older, single-file version of the cutout augmentation. Its
    `CutoutTransform` and `Cutout` share their code with the newer version
    (module `CutoutTransforms` and `CutoutAugmentations`); what differs is the
    default arguments of `Cutout` and an `ObjectAwareCutout` whose
    constructor takes a scalar size ratio and whose `get_transform` is not
    implemented. */
module LegacyAugmentation {
  import opened Wrappers
  import opened CutoutTransforms
  import opened CutoutAugmentations

  /** `Cutout()` of the older version with its default arguments: a larger
      area range and a single rectangle. */
  function LegacyDefaultCutout(): Result<CutoutConfig, ConfigError>
  {
    NewCutoutConfig(0.5, TwoReals(0.02, 0.2), TwoReals(0.33, 3.0), OneInt(1))
  }

  lemma LegacyDefaultCutoutAccepted()
    ensures LegacyDefaultCutout() == Ok(CutoutConfig(0.5, (0.02, 0.2), 0.18, (0.33, 3.0), 2.67, (1, 1)))
  {
  }

  /** With the older defaults a cutout that fires holds exactly one rectangle,
      and it lies inside the image. */
  lemma LegacyDefaultCutoutOneRect(s: SampleDraws, h: nat, w: nat)
    requires Drawable(CutoutConfig(0.5, (0.02, 0.2), 0.18, (0.33, 3.0), 2.67, (1, 1)), s, h, w)
    ensures var r := CutoutSample(CutoutConfig(0.5, (0.02, 0.2), 0.18, (0.33, 3.0), 2.67, (1, 1)), s, h, w);
      r.Ok? && r.value.Cutout? ==>
        |r.value.rects| == 1 && 0 <= r.value.rects[0].x0 <= r.value.rects[0].x1 <= w
        && 0 <= r.value.rects[0].y0 <= r.value.rects[0].y1 <= h
  {
    CutoutSampleSound(CutoutConfig(0.5, (0.02, 0.2), 0.18, (0.33, 3.0), 2.67, (1, 1)), s, h, w);
  }

  /** The fields the older `ObjectAwareCutout` stores. */
  datatype LegacyObjectAwareConfig = LegacyObjectAwareConfig(prob: real, sizePct: real, num: int)

  /** `raise NotImplementedError`. */
  datatype NotImplementedError = NotImplementedError

  /** The older `ObjectAwareCutout.__init__`: the probability and the
      (scalar) size ratio must be fractions, the probability checked first;
      both are stored as given, with `num`. */
  function NewLegacyObjectAwareCutout(prob: real, sizePct: real, num: int): (r: Result<LegacyObjectAwareConfig, ConfigError>)
    ensures r == Err(ProbOutOfRange) <==> !IsFraction(prob)
    ensures r == Err(PctOutOfRange) <==> IsFraction(prob) && !IsFraction(sizePct)
    ensures r.Ok? <==> IsFraction(prob) && IsFraction(sizePct)
    ensures r.Ok? ==> r.value == LegacyObjectAwareConfig(prob, sizePct, num)
  {
    if !IsFraction(prob) then Err(ProbOutOfRange)
    else if !IsFraction(sizePct) then Err(PctOutOfRange)
    else Ok(LegacyObjectAwareConfig(prob, sizePct, num))
  }

  /** The older `ObjectAwareCutout.get_transform`: never produces a transform. */
  function LegacyObjectGetTransform(c: LegacyObjectAwareConfig): (r: Result<Transform, NotImplementedError>)
    ensures r == Err(NotImplementedError)
  {
    Err(NotImplementedError)
  }
}
