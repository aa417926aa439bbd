/** The sampling half of the cutout augmentation: the validated configuration
    the constructors store, `Cutout.get_transform` (rectangles anywhere in the
    image) and `ObjectAwareCutout` (rectangles around each ground-truth box).

    The random source is not modelled: each call takes the values it would
    have drawn as a `SampleDraws`, and `Drawable` says which values numpy can
    produce. The floating-point sizing (`sqrt` of the drawn area and aspect)
    is not modelled either: each rectangle's `_h` and `_w` are part of its draws. */
module CutoutAugmentations {
  import opened Wrappers
  import opened CutoutTransforms

  // ----------------------------------------------------------------------
  // Configuration (the constructors)
  // ----------------------------------------------------------------------

  /** An argument given either as one number or as a `(lo, hi)` tuple. */
  datatype RealArg = OneReal(v: real) | TwoReals(lo: real, hi: real)
  datatype IntArg = OneInt(n: int) | TwoInts(lo: int, hi: int)

  /** The constructor's failed assertions. */
  datatype ConfigError = ProbOutOfRange | PctOutOfRange

  /** The fields the constructor stores, every range normalised to a pair. */
  datatype CutoutConfig = CutoutConfig(
    prob: real,
    sizePct: (real, real),
    sizePctScale: real,
    aspect: (real, real),
    aspectScale: real,
    num: (int, int))

  function RealPair(a: RealArg): (real, real)
  {
    match a
    case OneReal(v) => (v, v)
    case TwoReals(lo, hi) => (lo, hi)
  }

  function IntPair(a: IntArg): (int, int)
  {
    match a
    case OneInt(n) => (n, n)
    case TwoInts(lo, hi) => (lo, hi)
  }

  predicate IsFraction(x: real)
  {
    0.0 <= x <= 1.0
  }

  /** What a constructed configuration guarantees: probability and both area
      ratios are fractions, and each scale is the width of its range. */
  predicate ValidConfig(c: CutoutConfig)
  {
    && IsFraction(c.prob)
    && IsFraction(c.sizePct.0) && IsFraction(c.sizePct.1)
    && c.sizePctScale == c.sizePct.1 - c.sizePct.0
    && c.aspectScale == c.aspect.1 - c.aspect.0
  }

  /** `Cutout.__init__` (and the identical `ObjectAwareCutout.__init__`):
      reject a probability or an area ratio outside [0, 1], checking the
      probability first; otherwise store the normalised arguments. */
  function NewCutoutConfig(prob: real, sizePct: RealArg, aspect: RealArg, num: IntArg): (r: Result<CutoutConfig, ConfigError>)
    ensures r == Err(ProbOutOfRange) <==> !IsFraction(prob)
    ensures r == Err(PctOutOfRange) <==>
      IsFraction(prob) && !(IsFraction(RealPair(sizePct).0) && IsFraction(RealPair(sizePct).1))
    ensures r.Ok? ==> ValidConfig(r.value)
    ensures r.Ok? ==>
      r.value.prob == prob && r.value.sizePct == RealPair(sizePct) &&
      r.value.aspect == RealPair(aspect) && r.value.num == IntPair(num)
  {
    if !IsFraction(prob) then Err(ProbOutOfRange)
    else if !(match sizePct
              case TwoReals(lo, hi) => IsFraction(lo) && IsFraction(hi)
              case OneReal(v) => IsFraction(v)) then Err(PctOutOfRange)
    else
      var sp, asp := RealPair(sizePct), RealPair(aspect);
      Ok(CutoutConfig(prob, sp, sp.1 - sp.0, asp, asp.1 - asp.0, IntPair(num)))
  }

  /** Normalising is idempotent: handing the stored pairs back to the
      constructor rebuilds the same configuration. */
  lemma ConfigRoundTrip(prob: real, sizePct: RealArg, aspect: RealArg, num: IntArg)
    requires NewCutoutConfig(prob, sizePct, aspect, num).Ok?
    ensures var c := NewCutoutConfig(prob, sizePct, aspect, num).value;
      NewCutoutConfig(c.prob, TwoReals(c.sizePct.0, c.sizePct.1), TwoReals(c.aspect.0, c.aspect.1),
                      TwoInts(c.num.0, c.num.1)) == Ok(c)
  {
  }

  // ----------------------------------------------------------------------
  // Random draws
  // ----------------------------------------------------------------------

  /** The values drawn for one rectangle: its size `_h`, `_w` and the two
      `randint(0, w)`, `randint(0, h)` anchor draws. */
  datatype RectDraw = RectDraw(rh: nat, rw: nat, ax: int, ay: int)

  /** The values one sampling call draws: the uniform `u` compared with `prob`,
      the count `n` drawn from `num`, and one `RectDraw` per rectangle. */
  datatype SampleDraws = SampleDraws(u: real, n: int, rects: seq<RectDraw>)

  /** numpy's `ValueError` from `randint(low, high)` when `low >= high`. */
  datatype SampleError = EmptyRange

  /** How many times `for _ in range(n)` runs. */
  function Count(n: int): nat
  {
    if n < 0 then 0 else n
  }

  /** The draws are values numpy can produce for a region of `h` by `w`:
      `u` in [0, 1); when a count is drawn, it lies in `[num[0], num[1]]`
      and there is one `RectDraw` per rectangle; every anchor drawn from a
      non-empty range lies in that range. */
  predicate Drawable(c: CutoutConfig, s: SampleDraws, h: int, w: int)
  {
    && 0.0 <= s.u < 1.0
    && (s.u < c.prob && c.num.0 <= c.num.1 ==>
         && c.num.0 <= s.n <= c.num.1
         && |s.rects| == Count(s.n)
         && forall d :: d in s.rects ==> (w > 0 ==> 0 <= d.ax < w) && (h > 0 ==> 0 <= d.ay < h))
  }

  function Min(a: int, b: int): int
  {
    if a <= b then a else b
  }

  function Max(a: int, b: int): int
  {
    if a >= b then a else b
  }

  // ----------------------------------------------------------------------
  // Cutout.get_transform
  // ----------------------------------------------------------------------

  /** One rectangle of `Cutout`: anchored at the drawn corner, its far corner
      clamped to the image. */
  function CutoutRect(d: RectDraw, h: int, w: int): Rect
  {
    Rect(d.ax, d.ay, Min(d.ax + d.rw, w), Min(d.ay + d.rh, h))
  }

  /** What `Cutout.get_transform` returns for an `h` by `w` image. */
  function CutoutSample(c: CutoutConfig, s: SampleDraws, h: nat, w: nat): Result<Transform, SampleError>
    requires Drawable(c, s, h, w)
  {
    if s.u >= c.prob then Ok(NoOp)
    else if c.num.0 > c.num.1 then Err(EmptyRange)
    else if s.n > 0 && (w == 0 || h == 0) then Err(EmptyRange)
    else Ok(Cutout(seq(Count(s.n), i requires 0 <= i < Count(s.n) => CutoutRect(s.rects[i], h, w))))
  }

  /** `Cutout.get_transform`: draw, then append one rectangle per count. */
  method CutoutGetTransform(c: CutoutConfig, h: nat, w: nat, s: SampleDraws) returns (r: Result<Transform, SampleError>)
    requires Drawable(c, s, h, w)
    ensures r == CutoutSample(c, s, h, w)
  {
    var doIt := s.u < c.prob;
    if !doIt {
      return Ok(NoOp);
    }
    if c.num.0 > c.num.1 {
      return Err(EmptyRange);
    }
    var num := s.n;
    var rects: seq<Rect> := [];
    var k := 0;
    while k < num
      invariant 0 <= k <= Count(num)
      invariant k > 0 ==> w > 0 && h > 0
      invariant |rects| == k
      invariant forall i :: 0 <= i < k ==> rects[i] == CutoutRect(s.rects[i], h, w)
    {
      if w == 0 || h == 0 {
        return Err(EmptyRange);
      }
      var d := s.rects[k];
      var x0 := d.ax;
      var x1 := Min(x0 + d.rw, w);
      var y0 := d.ay;
      var y1 := Min(y0 + d.rh, h);
      rects := rects + [Rect(x0, y0, x1, y1)];
      k := k + 1;
    }
    assert rects == seq(Count(s.n), i requires 0 <= i < Count(s.n) => CutoutRect(s.rects[i], h, w));
    return Ok(Cutout(rects));
  }

  /** `Cutout.get_transform` gives no-op exactly when the uniform draw is at
      least `prob`; otherwise (unless a `randint` range is empty) a cutout
      with as many rectangles as the drawn count, which lies in
      `[num[0], num[1]]` when `num[0]` is not negative, every rectangle
      starting inside the image and ending at or before its far edge. */
  lemma CutoutSampleSound(c: CutoutConfig, s: SampleDraws, h: nat, w: nat)
    requires Drawable(c, s, h, w)
    ensures CutoutSample(c, s, h, w) == Ok(NoOp) <==> s.u >= c.prob
    ensures CutoutSample(c, s, h, w).Err? <==>
      s.u < c.prob && (c.num.0 > c.num.1 || (s.n > 0 && (w == 0 || h == 0)))
    ensures CutoutSample(c, s, h, w).Ok? && CutoutSample(c, s, h, w).value.Cutout? ==>
      var rs := CutoutSample(c, s, h, w).value.rects;
      && |rs| == Count(s.n)
      && (c.num.0 >= 0 ==> c.num.0 <= |rs| <= c.num.1)
      && forall i :: 0 <= i < |rs| ==>
           0 <= rs[i].x0 < w && rs[i].x0 <= rs[i].x1 <= w &&
           0 <= rs[i].y0 < h && rs[i].y0 <= rs[i].y1 <= h
  {
    if s.u < c.prob && c.num.0 <= c.num.1 && !(s.n > 0 && (w == 0 || h == 0)) {
      var rs := CutoutSample(c, s, h, w).value.rects;
      forall i | 0 <= i < |rs|
        ensures 0 <= rs[i].x0 < w && rs[i].x0 <= rs[i].x1 <= w
        ensures 0 <= rs[i].y0 < h && rs[i].y0 <= rs[i].y1 <= h
      {
        assert s.rects[i] in s.rects;
      }
    }
  }

  // ----------------------------------------------------------------------
  // ObjectAwareCutout
  // ----------------------------------------------------------------------

  /** One rectangle of `ObjectAwareCutout`: centred on the drawn point of the
      box's region, each side clamped on its own to the image. */
  function ObjectRect(d: RectDraw, xoff: int, yoff: int, imgh: nat, imgw: nat): Rect
  {
    var cx, cy := d.ax + xoff, d.ay + yoff;
    Rect(Max(0, cx - d.rw / 2), Max(0, cy - d.rh / 2), Min(imgw, cx + d.rw / 2), Min(imgh, cy + d.rh / 2))
  }

  /** What `ObjectAwareCutout._get_transform_rects` returns for a region of
      `h` by `w` at offset `(xoff, yoff)` in an `imgh` by `imgw` image. */
  function ObjectSample(c: CutoutConfig, s: SampleDraws, h: int, w: int, xoff: int, yoff: int, imgh: nat, imgw: nat): Result<seq<Rect>, SampleError>
    requires Drawable(c, s, h, w)
  {
    if s.u >= c.prob then Ok([])
    else if c.num.0 > c.num.1 then Err(EmptyRange)
    else if s.n > 0 && (w <= 0 || h <= 0) then Err(EmptyRange)
    else Ok(seq(Count(s.n), i requires 0 <= i < Count(s.n) => ObjectRect(s.rects[i], xoff, yoff, imgh, imgw)))
  }

  /** `ObjectAwareCutout._get_transform_rects`. */
  method ObjectGetTransformRects(c: CutoutConfig, s: SampleDraws, h: int, w: int, xoff: int, yoff: int, imgh: nat, imgw: nat)
    returns (r: Result<seq<Rect>, SampleError>)
    requires Drawable(c, s, h, w)
    ensures r == ObjectSample(c, s, h, w, xoff, yoff, imgh, imgw)
  {
    var doIt := s.u < c.prob;
    if !doIt {
      return Ok([]);
    }
    if c.num.0 > c.num.1 {
      return Err(EmptyRange);
    }
    var num := s.n;
    var rects: seq<Rect> := [];
    var k := 0;
    while k < num
      invariant 0 <= k <= Count(num)
      invariant k > 0 ==> w > 0 && h > 0
      invariant |rects| == k
      invariant forall i :: 0 <= i < k ==> rects[i] == ObjectRect(s.rects[i], xoff, yoff, imgh, imgw)
    {
      if w <= 0 || h <= 0 {
        return Err(EmptyRange);
      }
      var d := s.rects[k];
      var cx := d.ax + xoff;
      var cy := d.ay + yoff;
      var x0 := Max(0, cx - d.rw / 2);
      var x1 := Min(imgw, cx + d.rw / 2);
      var y0 := Max(0, cy - d.rh / 2);
      var y1 := Min(imgh, cy + d.rh / 2);
      rects := rects + [Rect(x0, y0, x1, y1)];
      k := k + 1;
    }
    assert rects == seq(Count(s.n), i requires 0 <= i < Count(s.n) => ObjectRect(s.rects[i], xoff, yoff, imgh, imgw));
    return Ok(rects);
  }

  /** Every box's draws are drawable for that box's own region. */
  predicate DrawsFit(c: CutoutConfig, boxes: seq<Box>, draws: seq<SampleDraws>)
  {
    |draws| == |boxes| &&
    forall i :: 0 <= i < |boxes| ==> Drawable(c, draws[i], boxes[i].y1 - boxes[i].y0, boxes[i].x1 - boxes[i].x0)
  }

  lemma DrawsFitPrefix(c: CutoutConfig, boxes: seq<Box>, draws: seq<SampleDraws>, n: nat)
    requires DrawsFit(c, boxes, draws) && n <= |boxes|
    ensures DrawsFit(c, boxes[..n], draws[..n])
  {
    assert forall i :: 0 <= i < n ==> boxes[..n][i] == boxes[i] && draws[..n][i] == draws[i];
  }

  /** The rectangles sampled for one box, in `get_transform`'s call shape. */
  function BoxSample(c: CutoutConfig, b: Box, s: SampleDraws, imgh: nat, imgw: nat): Result<seq<Rect>, SampleError>
    requires Drawable(c, s, b.y1 - b.y0, b.x1 - b.x0)
  {
    ObjectSample(c, s, b.y1 - b.y0, b.x1 - b.x0, b.x0, b.y0, imgh, imgw)
  }

  /** The per-box rectangle lists concatenated in box order, or the first
      box's error. */
  function AllObjectRects(c: CutoutConfig, boxes: seq<Box>, draws: seq<SampleDraws>, imgh: nat, imgw: nat): Result<seq<Rect>, SampleError>
    requires DrawsFit(c, boxes, draws)
    decreases |boxes|
  {
    if boxes == [] then Ok([])
    else
      var n := |boxes| - 1;
      DrawsFitPrefix(c, boxes, draws, n);
      var pre := AllObjectRects(c, boxes[..n], draws[..n], imgh, imgw);
      var last := BoxSample(c, boxes[n], draws[n], imgh, imgw);
      if pre.Err? then pre
      else if last.Err? then Err(last.error)
      else Ok(pre.value + last.value)
  }

  /** One more box extends the rectangles sampled so far by its own, or
      fails with its error. */
  lemma AllObjectRectsStep(c: CutoutConfig, boxes: seq<Box>, draws: seq<SampleDraws>, imgh: nat, imgw: nat, i: nat, rs: seq<Rect>)
    requires DrawsFit(c, boxes, draws) && i < |boxes|
    requires DrawsFit(c, boxes[..i], draws[..i])
    requires AllObjectRects(c, boxes[..i], draws[..i], imgh, imgw) == Ok(rs)
    ensures DrawsFit(c, boxes[..i + 1], draws[..i + 1])
    ensures var last := BoxSample(c, boxes[i], draws[i], imgh, imgw);
      AllObjectRects(c, boxes[..i + 1], draws[..i + 1], imgh, imgw)
        == if last.Err? then Err(last.error) else Ok(rs + last.value)
  {
    DrawsFitPrefix(c, boxes, draws, i + 1);
    assert boxes[..i + 1][..i] == boxes[..i] && draws[..i + 1][..i] == draws[..i];
    assert boxes[..i + 1][i] == boxes[i] && draws[..i + 1][i] == draws[i];
  }

  /** What `ObjectAwareCutout.get_transform` returns. */
  function ObjectTransform(c: CutoutConfig, boxes: seq<Box>, draws: seq<SampleDraws>, imgh: nat, imgw: nat): Result<Transform, SampleError>
    requires DrawsFit(c, boxes, draws)
  {
    match AllObjectRects(c, boxes, draws, imgh, imgw)
    case Err(e) => Err(e)
    case Ok(rs) => if |rs| == 0 then Ok(NoOp) else Ok(Cutout(rs))
  }

  /** `ObjectAwareCutout.get_transform`: sample around every box, concatenate,
      and give no-op when nothing was sampled. */
  method ObjectGetTransform(c: CutoutConfig, imgh: nat, imgw: nat, boxes: seq<Box>, draws: seq<SampleDraws>)
    returns (r: Result<Transform, SampleError>)
    requires DrawsFit(c, boxes, draws)
    ensures r == ObjectTransform(c, boxes, draws, imgh, imgw)
  {
    var rects: seq<Rect> := [];
    var i := 0;
    while i < |boxes|
      invariant 0 <= i <= |boxes|
      invariant DrawsFit(c, boxes[..i], draws[..i])
      invariant AllObjectRects(c, boxes[..i], draws[..i], imgh, imgw) == Ok(rects)
    {
      var b := boxes[i];
      var more := ObjectGetTransformRects(c, draws[i], b.y1 - b.y0, b.x1 - b.x0, b.x0, b.y0, imgh, imgw);
      AllObjectRectsStep(c, boxes, draws, imgh, imgw, i, rects);
      if more.Err? {
        AllObjectRectsErrSticks(c, boxes, draws, imgh, imgw, i + 1);
        assert boxes[..|boxes|] == boxes && draws[..|draws|] == draws;
        return Err(more.error);
      }
      rects := rects + more.value;
      i := i + 1;
    }
    assert boxes[..i] == boxes && draws[..i] == draws;
    if |rects| == 0 {
      return Ok(NoOp);
    }
    return Ok(Cutout(rects));
  }

  /** Once a box's sampling fails, the whole call fails with that error. */
  lemma {:induction false} AllObjectRectsErrSticks(c: CutoutConfig, boxes: seq<Box>, draws: seq<SampleDraws>, imgh: nat, imgw: nat, k: nat)
    requires DrawsFit(c, boxes, draws) && k <= |boxes|
    requires DrawsFit(c, boxes[..k], draws[..k])
    requires AllObjectRects(c, boxes[..k], draws[..k], imgh, imgw).Err?
    ensures AllObjectRects(c, boxes, draws, imgh, imgw) == AllObjectRects(c, boxes[..k], draws[..k], imgh, imgw)
    decreases |boxes| - k
  {
    if k < |boxes| {
      DrawsFitPrefix(c, boxes, draws, k + 1);
      assert boxes[..k + 1][..k] == boxes[..k] && draws[..k + 1][..k] == draws[..k];
      AllObjectRectsErrSticks(c, boxes, draws, imgh, imgw, k + 1);
    } else {
      assert boxes[..k] == boxes && draws[..k] == draws;
    }
  }

  /** Every rectangle `ObjectAwareCutout` produces starts at or after the
      image's top-left corner and ends at or before its bottom-right corner. */
  lemma {:induction false} ObjectRectsClamped(c: CutoutConfig, boxes: seq<Box>, draws: seq<SampleDraws>, imgh: nat, imgw: nat)
    requires DrawsFit(c, boxes, draws)
    requires AllObjectRects(c, boxes, draws, imgh, imgw).Ok?
    ensures forall r :: r in AllObjectRects(c, boxes, draws, imgh, imgw).value ==>
      0 <= r.x0 && r.x1 <= imgw && 0 <= r.y0 && r.y1 <= imgh
  {
    if boxes != [] {
      var n := |boxes| - 1;
      DrawsFitPrefix(c, boxes, draws, n);
      ObjectRectsClamped(c, boxes[..n], draws[..n], imgh, imgw);
    }
  }

  /** `ObjectAwareCutout.get_transform` succeeds with no-op exactly when every
      box's sampling succeeded with no rectangle (in particular when there are
      no boxes, or every uniform draw is at least `prob`). */
  lemma {:induction false} ObjectNoOpIff(c: CutoutConfig, boxes: seq<Box>, draws: seq<SampleDraws>, imgh: nat, imgw: nat)
    requires DrawsFit(c, boxes, draws)
    ensures ObjectTransform(c, boxes, draws, imgh, imgw) == Ok(NoOp) <==>
      forall i :: 0 <= i < |boxes| ==> BoxSample(c, boxes[i], draws[i], imgh, imgw) == Ok([])
  {
    if boxes != [] {
      var n := |boxes| - 1;
      DrawsFitPrefix(c, boxes, draws, n);
      ObjectNoOpIff(c, boxes[..n], draws[..n], imgh, imgw);
      var pre := boxes[..n];
      assert forall i :: 0 <= i < n ==> pre[i] == boxes[i] && draws[..n][i] == draws[i];
      if ObjectTransform(c, boxes, draws, imgh, imgw) == Ok(NoOp) {
        AllObjectRectsOkPrefix(c, boxes, draws, imgh, imgw);
      }
    }
  }

  lemma AllObjectRectsOkPrefix(c: CutoutConfig, boxes: seq<Box>, draws: seq<SampleDraws>, imgh: nat, imgw: nat)
    requires DrawsFit(c, boxes, draws) && boxes != []
    requires AllObjectRects(c, boxes, draws, imgh, imgw).Ok?
    ensures DrawsFit(c, boxes[..|boxes| - 1], draws[..|boxes| - 1])
    ensures var n := |boxes| - 1;
      && AllObjectRects(c, boxes[..n], draws[..n], imgh, imgw).Ok?
      && BoxSample(c, boxes[n], draws[n], imgh, imgw).Ok?
      && AllObjectRects(c, boxes, draws, imgh, imgw).value ==
           AllObjectRects(c, boxes[..n], draws[..n], imgh, imgw).value + BoxSample(c, boxes[n], draws[n], imgh, imgw).value
  {
    DrawsFitPrefix(c, boxes, draws, |boxes| - 1);
  }

  /** Unlike `Cutout`'s, an object-aware rectangle may end before the image
      starts: for a box lying left of the image its end coordinate is
      negative, and numpy then counts it from the right edge, so the fill
      reaches pixels far from the box. */
  lemma ObjectRectMayEndBeforeImage()
    ensures ObjectRect(RectDraw(4, 4, 0, 0), -20, 0, 100, 100) == Rect(0, 0, -18, 2)
    ensures Covers(Rect(0, 0, -18, 2), 0, 50, 100, 100)
  {
  }

  // ----------------------------------------------------------------------
  // Defaults
  // ----------------------------------------------------------------------

  /** `Cutout()` with its default arguments. */
  function DefaultCutout(): Result<CutoutConfig, ConfigError>
  {
    NewCutoutConfig(0.5, TwoReals(0.02, 0.05), TwoReals(0.33, 3.0), TwoInts(5, 10))
  }

  /** The default `Cutout` is accepted, with its ranges as given. */
  lemma DefaultCutoutAccepted()
    ensures DefaultCutout() == Ok(CutoutConfig(0.5, (0.02, 0.05), 0.03, (0.33, 3.0), 2.67, (5, 10)))
  {
  }

  /** When the default `Cutout` fires on a non-empty image it blacks out
      between 5 and 10 rectangles. */
  lemma DefaultCutoutFiveToTen(s: SampleDraws, h: nat, w: nat)
    requires Drawable(CutoutConfig(0.5, (0.02, 0.05), 0.03, (0.33, 3.0), 2.67, (5, 10)), s, h, w)
    ensures var r := CutoutSample(CutoutConfig(0.5, (0.02, 0.05), 0.03, (0.33, 3.0), 2.67, (5, 10)), s, h, w);
      && (r.Ok? && r.value.Cutout? ==> 5 <= |r.value.rects| <= 10)
      && (r.Err? <==> s.u < 0.5 && (w == 0 || h == 0))
  {
    CutoutSampleSound(CutoutConfig(0.5, (0.02, 0.05), 0.03, (0.33, 3.0), 2.67, (5, 10)), s, h, w);
  }
}
