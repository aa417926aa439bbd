/** The transform half of the cutout augmentation (`CutoutTransform`): it
    blacks out rectangles of an image (`apply_image`), shrinks or removes the
    ground-truth boxes they occlude (`apply_box`), and leaves coordinates and
    segmentations alone. */
module CutoutTransforms {
  import opened Wrappers

  /** An occlusion rectangle `(x0, y0, x1, y1)` in pixels, end-exclusive. */
  datatype Rect = Rect(x0: int, y0: int, x1: int, y1: int)

  /** A ground-truth box `(bx0, by0, bx1, by1)` in absolute XYXY pixels. */
  datatype Box = Box(x0: int, y0: int, x1: int, y1: int)

  /** What an augmentation hands to the data pipeline: nothing to do
      (`NoOpTransform`) or a cutout over an ordered list of rectangles. */
  datatype Transform = NoOp | Cutout(rects: seq<Rect>)

  // ----------------------------------------------------------------------
  // apply_image
  // ----------------------------------------------------------------------

  /** An image as rows of pixel values. */
  type Grid = seq<seq<int>>

  function Width(g: Grid): nat
  {
    if |g| == 0 then 0 else |g[0]|
  }

  predicate Rectangular(g: Grid)
  {
    forall i :: 0 <= i < |g| ==> |g[i]| == Width(g)
  }

  /** How Python normalises one bound of a slice over an axis of length `n`:
      a negative bound counts from the end, and the result is clamped to `[0, n]`. */
  function SliceBound(a: int, n: nat): (k: nat)
    ensures k <= n
  {
    if a < 0 then (if a + n < 0 then 0 else a + n)
    else if a > n then n
    else a
  }

  /** Index `i` is one of those the slice `[a:b]` selects on an axis of length `n`. */
  predicate InSlice(i: int, a: int, b: int, n: nat)
  {
    SliceBound(a, n) <= i < SliceBound(b, n)
  }

  /** Pixel `(y, x)` lies in `img[r.y0:r.y1, r.x0:r.x1]` for an `h` by `w` image. */
  predicate Covers(r: Rect, y: int, x: int, h: nat, w: nat)
  {
    InSlice(y, r.y0, r.y1, h) && InSlice(x, r.x0, r.x1, w)
  }

  predicate Covered(rects: seq<Rect>, y: int, x: int, h: nat, w: nat)
  {
    exists k :: 0 <= k < |rects| && Covers(rects[k], y, x, h, w)
  }

  /** The image `apply_image` returns: a pixel some rectangle selects is 0,
      every other pixel keeps its value. */
  function Filled(g: Grid, rects: seq<Rect>): (f: Grid)
    requires Rectangular(g)
    ensures |f| == |g| && Width(f) == Width(g) && Rectangular(f)
  {
    seq(|g|, i requires 0 <= i < |g| =>
      seq(Width(g), j requires 0 <= j < Width(g) =>
        if Covered(rects, i, j, |g|, Width(g)) then 0 else g[i][j]))
  }

  /** The pixels of an array, row by row. */
  ghost function Snapshot(a: array2<int>): (g: Grid)
    reads a
    ensures |g| == a.Length0 && Rectangular(g)
    ensures |g| > 0 ==> Width(g) == a.Length1
    ensures forall i, j :: 0 <= i < a.Length0 && 0 <= j < a.Length1 ==> g[i][j] == a[i, j]
  {
    seq(a.Length0, i requires 0 <= i < a.Length0 reads a =>
      seq(a.Length1, j requires 0 <= j < a.Length1 reads a => a[i, j]))
  }

  /** `img[r.y0:r.y1, r.x0:r.x1] = 0`, with numpy's slice semantics. */
  method ZeroRect(a: array2<int>, r: Rect)
    modifies a
    ensures forall y, x :: 0 <= y < a.Length0 && 0 <= x < a.Length1 ==>
      a[y, x] == if Covers(r, y, x, a.Length0, a.Length1) then 0 else old(a[y, x])
  {
    var ylo, yhi := SliceBound(r.y0, a.Length0), SliceBound(r.y1, a.Length0);
    var xlo, xhi := SliceBound(r.x0, a.Length1), SliceBound(r.x1, a.Length1);
    var y := ylo;
    while y < yhi
      invariant ylo <= y <= if ylo <= yhi then yhi else ylo
      invariant forall i, j :: 0 <= i < a.Length0 && 0 <= j < a.Length1 ==>
        a[i, j] == if ylo <= i < y && xlo <= j < xhi then 0 else old(a[i, j])
    {
      var x := xlo;
      while x < xhi
        invariant xlo <= x <= if xlo <= xhi then xhi else xlo
        invariant forall i, j :: 0 <= i < a.Length0 && 0 <= j < a.Length1 ==>
          a[i, j] == if (ylo <= i < y && xlo <= j < xhi) || (i == y && xlo <= j < x) then 0 else old(a[i, j])
      {
        a[y, x] := 0;
        x := x + 1;
      }
      y := y + 1;
    }
  }

  lemma CoveredSnoc(rects: seq<Rect>, k: nat, y: int, x: int, h: nat, w: nat)
    requires k < |rects|
    ensures Covered(rects[..k + 1], y, x, h, w) <==> Covered(rects[..k], y, x, h, w) || Covers(rects[k], y, x, h, w)
  {
    var pre, ext := rects[..k], rects[..k + 1];
    if Covered(ext, y, x, h, w) {
      var m :| 0 <= m < |ext| && Covers(ext[m], y, x, h, w);
      if m < k {
        assert pre[m] == ext[m];
      }
    }
    if Covered(pre, y, x, h, w) {
      var m :| 0 <= m < |pre| && Covers(pre[m], y, x, h, w);
      assert ext[m] == pre[m];
    }
    if Covers(rects[k], y, x, h, w) {
      assert ext[k] == rects[k];
    }
  }

  /** `CutoutTransform.apply_image`: copy the image, then zero every rectangle's
      slice of the copy; the caller's image is not touched. */
  method ApplyImage(img: array2<int>, rects: seq<Rect>) returns (out: array2<int>)
    ensures fresh(out)
    ensures out.Length0 == img.Length0 && out.Length1 == img.Length1
    ensures Snapshot(out) == Filled(Snapshot(img), rects)
  {
    var h, w := img.Length0, img.Length1;
    out := new int[h, w];
    var i := 0;
    while i < h
      invariant 0 <= i <= h
      invariant forall y, x :: 0 <= y < i && 0 <= x < w ==> out[y, x] == img[y, x]
    {
      var j := 0;
      while j < w
        invariant 0 <= j <= w
        invariant forall y, x :: 0 <= y < i && 0 <= x < w ==> out[y, x] == img[y, x]
        invariant forall x :: 0 <= x < j ==> out[i, x] == img[i, x]
      {
        out[i, j] := img[i, j];
        j := j + 1;
      }
      i := i + 1;
    }
    var k := 0;
    while k < |rects|
      invariant 0 <= k <= |rects|
      invariant forall y, x :: 0 <= y < h && 0 <= x < w ==>
        out[y, x] == if Covered(rects[..k], y, x, h, w) then 0 else img[y, x]
    {
      ZeroRect(out, rects[k]);
      forall y, x | 0 <= y < h && 0 <= x < w
        ensures out[y, x] == if Covered(rects[..k + 1], y, x, h, w) then 0 else img[y, x]
      {
        CoveredSnoc(rects, k, y, x, h, w);
      }
      k := k + 1;
    }
    assert rects[..k] == rects;
    ghost var s, f := Snapshot(out), Filled(Snapshot(img), rects);
    forall y | 0 <= y < h
      ensures s[y] == f[y]
    {
      assert forall x :: 0 <= x < w ==> s[y][x] == f[y][x];
    }
  }

  /** Zeroing with no rectangles gives back the image itself. */
  lemma FilledNothing(g: Grid)
    requires Rectangular(g)
    ensures Filled(g, []) == g
  {
    var f := Filled(g, []);
    forall i | 0 <= i < |g|
      ensures f[i] == g[i]
    {
      assert forall j :: 0 <= j < Width(g) ==> f[i][j] == g[i][j];
    }
  }

  /** Zeroing twice with the same rectangles is zeroing once. */
  lemma FilledIdempotent(g: Grid, rects: seq<Rect>)
    requires Rectangular(g)
    ensures Filled(Filled(g, rects), rects) == Filled(g, rects)
  {
    var f := Filled(g, rects);
    var ff := Filled(f, rects);
    forall i | 0 <= i < |g|
      ensures ff[i] == f[i]
    {
      assert forall j :: 0 <= j < Width(g) ==> ff[i][j] == f[i][j];
    }
  }

  /** Zeroing one list and then another is zeroing their concatenation, in
      either order: the order of the rectangles does not matter. */
  lemma FilledConcat(g: Grid, rs1: seq<Rect>, rs2: seq<Rect>)
    requires Rectangular(g)
    ensures Filled(Filled(g, rs1), rs2) == Filled(g, rs1 + rs2)
    ensures Filled(g, rs1 + rs2) == Filled(g, rs2 + rs1)
  {
    var h, w := |g|, Width(g);
    forall y, x
      ensures Covered(rs1 + rs2, y, x, h, w) <==> Covered(rs1, y, x, h, w) || Covered(rs2, y, x, h, w)
      ensures Covered(rs2 + rs1, y, x, h, w) <==> Covered(rs1, y, x, h, w) || Covered(rs2, y, x, h, w)
    {
      CoveredConcat(rs1, rs2, y, x, h, w);
      CoveredConcat(rs2, rs1, y, x, h, w);
    }
    var a, b, c := Filled(Filled(g, rs1), rs2), Filled(g, rs1 + rs2), Filled(g, rs2 + rs1);
    forall i | 0 <= i < h
      ensures a[i] == b[i] && b[i] == c[i]
    {
      assert forall j :: 0 <= j < w ==> a[i][j] == b[i][j] && b[i][j] == c[i][j];
    }
  }

  lemma CoveredConcat(rs1: seq<Rect>, rs2: seq<Rect>, y: int, x: int, h: nat, w: nat)
    ensures Covered(rs1 + rs2, y, x, h, w) <==> Covered(rs1, y, x, h, w) || Covered(rs2, y, x, h, w)
  {
    var rs := rs1 + rs2;
    if Covered(rs, y, x, h, w) {
      var m :| 0 <= m < |rs| && Covers(rs[m], y, x, h, w);
      if m < |rs1| {
        assert rs1[m] == rs[m];
      } else {
        assert rs2[m - |rs1|] == rs[m];
      }
    }
    if Covered(rs1, y, x, h, w) {
      var m :| 0 <= m < |rs1| && Covers(rs1[m], y, x, h, w);
      assert rs[m] == rs1[m];
    }
    if Covered(rs2, y, x, h, w) {
      var m :| 0 <= m < |rs2| && Covers(rs2[m], y, x, h, w);
      assert rs[|rs1| + m] == rs2[m];
    }
  }

  /** For a rectangle that lies within the image, the slice selects exactly
      the pixels of the rectangle, so every pixel outside it is kept. */
  lemma InBoundsSliceIsRect(r: Rect, y: int, x: int, h: nat, w: nat)
    requires 0 <= r.x0 <= r.x1 <= w && 0 <= r.y0 <= r.y1 <= h
    ensures Covers(r, y, x, h, w) <==> r.y0 <= y < r.y1 && r.x0 <= x < r.x1
  {
  }

  /** A rectangle whose end coordinate is negative is not empty: numpy counts
      the end from the far edge, so `x1 == -1` on a 5-pixel-wide image selects
      columns 0 to 3. */
  lemma NegativeEndCountsFromEdge()
    ensures Covers(Rect(0, 0, -1, 1), 0, 3, 1, 5)
    ensures !(0 <= 3 < -1)
  {
  }

  // ----------------------------------------------------------------------
  // apply_box
  // ----------------------------------------------------------------------

  /** The degenerate box `[bx0, by0, bx0, by0]` that marks a removed object. */
  function Collapsed(b: Box): Box
  {
    Box(b.x0, b.y0, b.x0, b.y0)
  }

  function Area(b: Box): int
  {
    (b.x1 - b.x0) * (b.y1 - b.y0)
  }

  predicate WellFormed(b: Box)
  {
    b.x0 <= b.x1 && b.y0 <= b.y1
  }

  predicate Inside(inner: Box, outer: Box)
  {
    outer.x0 <= inner.x0 <= inner.x1 <= outer.x1 && outer.y0 <= inner.y0 <= inner.y1 <= outer.y1
  }

  /** The remainder one rectangle leaves of box `b`, or `None` when none of the
      five cases applies: full cover, a strip across the top, across the bottom,
      down the left side or down the right side. */
  function Match(b: Box, r: Rect): Option<Box>
  {
    if r.x0 <= b.x0 && b.x1 <= r.x1 then
      if r.y0 <= b.y0 && b.y1 <= r.y1 then Some(Collapsed(b))
      else if r.y0 <= b.y0 && b.y0 <= r.y1 then Some(Box(b.x0, r.y1, b.x1, b.y1))
      else if r.y0 <= b.y1 && b.y1 <= r.y1 then Some(Box(b.x0, b.y0, b.x1, r.y0))
      else None
    else if r.y0 <= b.y0 && b.y1 <= r.y1 then
      if r.x0 <= b.x0 && b.x0 <= r.x1 then Some(Box(r.x1, b.y0, b.x1, b.y1))
      else if r.x0 <= b.x1 && b.x1 <= r.x1 then Some(Box(b.x0, b.y0, r.x0, b.y1))
      else None
    else None
  }

  /** The remainder left by the first rectangle that matches, if any. */
  function FirstMatch(b: Box, rects: seq<Rect>): Option<Box>
  {
    if rects == [] then None
    else if Match(b, rects[0]).Some? then Match(b, rects[0])
    else FirstMatch(b, rects[1..])
  }

  /** What `apply_box` makes of one box: the first matching remainder (the box
      itself when nothing matches), collapsed when it keeps less than a tenth
      of the box's area. */
  function ClipBox(b: Box, rects: seq<Rect>): (c: Box)
    ensures c == Collapsed(b) || 10 * Area(c) >= Area(b)
    ensures WellFormed(b) ==> Inside(c, b)
  {
    var r := if FirstMatch(b, rects).Some? then FirstMatch(b, rects).value else b;
    FirstMatchInside(b, rects);
    if 10 * Area(r) < Area(b) then Collapsed(b) else r
  }

  /** Every case of `Match` leaves a part of a well-formed box: the full cover
      leaves the collapsed box, a strip leaves a box of positive height (top
      and bottom strips) or positive width (left and right strips). */
  lemma MatchInside(b: Box, r: Rect)
    requires WellFormed(b) && Match(b, r).Some?
    ensures Inside(Match(b, r).value, b)
    ensures Match(b, r).value == Collapsed(b)
         || Match(b, r).value.y0 < Match(b, r).value.y1
         || Match(b, r).value.x0 < Match(b, r).value.x1
  {
  }

  lemma {:induction false} FirstMatchInside(b: Box, rects: seq<Rect>)
    ensures WellFormed(b) && FirstMatch(b, rects).Some? ==> Inside(FirstMatch(b, rects).value, b)
  {
    if !WellFormed(b) || rects == [] {
    } else if Match(b, rects[0]).Some? {
      MatchInside(b, rects[0]);
    } else {
      FirstMatchInside(b, rects[1..]);
    }
  }

  /** The first-match policy: `FirstMatch` yields `m` exactly when some
      rectangle `k` leaves `m` and no rectangle before `k` matches at all. */
  lemma {:induction false} FirstMatchIsEarliest(b: Box, rects: seq<Rect>, m: Box)
    ensures FirstMatch(b, rects) == Some(m) <==>
      exists k :: 0 <= k < |rects| && Match(b, rects[k]) == Some(m) &&
        forall j :: 0 <= j < k ==> Match(b, rects[j]).None?
  {
    if rects != [] {
      FirstMatchIsEarliest(b, rects[1..], m);
      if FirstMatch(b, rects) == Some(m) {
        if Match(b, rects[0]).Some? {
          assert Match(b, rects[0]) == Some(m);
        } else {
          var k :| 0 <= k < |rects[1..]| && Match(b, rects[1..][k]) == Some(m) &&
            forall j :: 0 <= j < k ==> Match(b, rects[1..][j]).None?;
          assert Match(b, rects[k + 1]) == Some(m);
          forall j | 0 <= j < k + 1
            ensures Match(b, rects[j]).None?
          {
            if j > 0 {
              assert rects[j] == rects[1..][j - 1];
            }
          }
        }
      } else {
        forall k | 0 <= k < |rects| && Match(b, rects[k]) == Some(m)
          ensures exists j :: 0 <= j < k && Match(b, rects[j]).Some?
        {
          if Match(b, rects[0]).None? {
            assert k > 0;
            assert rects[1..][k - 1] == rects[k];
            var j :| 0 <= j < k - 1 && Match(b, rects[1..][j]).Some?;
            assert rects[j + 1] == rects[1..][j];
          } else {
            assert k > 0;
          }
        }
      }
    }
  }

  /** Once a rectangle has matched, rectangles after it change nothing. */
  lemma {:induction false} LaterRectsIgnored(b: Box, rects: seq<Rect>, later: seq<Rect>)
    requires FirstMatch(b, rects).Some?
    ensures FirstMatch(b, rects + later) == FirstMatch(b, rects)
    ensures ClipBox(b, rects + later) == ClipBox(b, rects)
  {
    assert (rects + later)[0] == rects[0];
    if Match(b, rects[0]).None? {
      assert (rects + later)[1..] == rects[1..] + later;
      LaterRectsIgnored(b, rects[1..], later);
    }
  }

  /** When no rectangle matches, the box comes back unchanged exactly when its
      area is not negative (otherwise the removal rule collapses it). */
  lemma NoMatchKeepsBox(b: Box, rects: seq<Rect>)
    requires FirstMatch(b, rects).None?
    ensures ClipBox(b, rects) == b <==> Area(b) >= 0
  {
    if Area(b) < 0 {
      assert b.x1 != b.x0;
    }
  }

  /** A rectangle that covers the box in both directions removes it, whatever
      comes after. */
  lemma FullCoverRemoves(b: Box, r: Rect, later: seq<Rect>)
    requires r.x0 <= b.x0 && b.x1 <= r.x1 && r.y0 <= b.y0 && b.y1 <= r.y1
    ensures ClipBox(b, [r] + later) == Collapsed(b)
  {
    assert ([r] + later)[0] == r;
  }

  /** `CutoutTransform.apply_box`: one result per box, in order. */
  method ApplyBox(boxes: seq<Box>, rects: seq<Rect>) returns (result: seq<Box>)
    ensures |result| == |boxes|
    ensures forall i :: 0 <= i < |boxes| ==> result[i] == ClipBox(boxes[i], rects)
  {
    result := [];
    var i := 0;
    while i < |boxes|
      invariant 0 <= i <= |boxes| && |result| == i
      invariant forall k :: 0 <= k < i ==> result[k] == ClipBox(boxes[k], rects)
    {
      var b := boxes[i];
      var r := b;
      var j := 0;
      while j < |rects|
        invariant 0 <= j <= |rects|
        invariant FirstMatch(b, rects) == FirstMatch(b, rects[j..])
        invariant r == b
      {
        var rc := rects[j];
        assert rects[j..][0] == rc && rects[j..][1..] == rects[j + 1..];
        if rc.x0 <= b.x0 && b.x1 <= rc.x1 {
          if rc.y0 <= b.y0 && b.y1 <= rc.y1 {
            r := Box(b.x0, b.y0, b.x0, b.y0);
            break;
          } else if rc.y0 <= b.y0 && b.y0 <= rc.y1 {
            r := Box(b.x0, rc.y1, b.x1, b.y1);
            break;
          } else if rc.y0 <= b.y1 && b.y1 <= rc.y1 {
            r := Box(b.x0, b.y0, b.x1, rc.y0);
            break;
          }
        } else if rc.y0 <= b.y0 && b.y1 <= rc.y1 {
          if rc.x0 <= b.x0 && b.x0 <= rc.x1 {
            r := Box(rc.x1, b.y0, b.x1, b.y1);
            break;
          } else if rc.x0 <= b.x1 && b.x1 <= rc.x1 {
            r := Box(b.x0, b.y0, rc.x0, b.y1);
            break;
          }
        }
        j := j + 1;
      }
      // 90% removal
      if (b.x1 - b.x0) * (b.y1 - b.y0) > 10 * ((r.x1 - r.x0) * (r.y1 - r.y0)) {
        r := Box(b.x0, b.y0, b.x0, b.y0);
      }
      result := result + [r];
      i := i + 1;
    }
  }

  /** Cutout with no rectangles and no-op agree on every box of non-negative
      area, which is why an empty rectangle list may be replaced by `NoOp`. */
  lemma EmptyCutoutKeepsBoxes(boxes: seq<Box>)
    requires forall i :: 0 <= i < |boxes| ==> Area(boxes[i]) >= 0
    ensures forall i :: 0 <= i < |boxes| ==> ClipBox(boxes[i], []) == boxes[i]
  {
    forall i | 0 <= i < |boxes|
      ensures ClipBox(boxes[i], []) == boxes[i]
    {
      NoMatchKeepsBox(boxes[i], []);
    }
  }

  // ----------------------------------------------------------------------
  // apply_coords, apply_segmentation
  // ----------------------------------------------------------------------

  /** Cutout changes pixel values only: coordinates pass through. */
  function ApplyCoords<C>(coords: C): (r: C)
    ensures r == coords
  {
    coords
  }

  /** Cutout changes pixel values only: segmentations pass through. */
  function ApplySegmentation<S>(segmentation: S): (r: S)
    ensures r == segmentation
  {
    segmentation
  }
}
