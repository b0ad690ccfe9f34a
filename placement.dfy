/**
 * The per-mode paint transform of swaybg. The target is the output in
 * physical pixels, the image its natural size. A transform scales the
 * drawing context (`scaleX`, `scaleY`), places the image at user-space
 * offset (`offsetX`, `offsetY`), and may repeat it over the whole surface.
 * Arithmetic is exact: `real` stands for the program's doubles.
 */
module Placement {
  import opened Scaling

  datatype Transform = Transform(scaleX: real, scaleY: real, offsetX: real, offsetY: real, repeat: bool)

  /** An axis-aligned rectangle in device pixels, corners (x0, y0) and (x1, y1). */
  datatype Rect = Rect(x0: real, y0: real, x1: real, y1: real)

  predicate Positive(tw: real, th: real, iw: real, ih: real) {
    tw > 0.0 && th > 0.0 && iw > 0.0 && ih > 0.0
  }

  function Max(a: real, b: real): (m: real)
    ensures m >= a && m >= b && (m == a || m == b)
  {
    if a >= b then a else b
  }

  function Min(a: real, b: real): (m: real)
    ensures m <= a && m <= b && (m == a || m == b)
  {
    if a <= b then a else b
  }

  /**
   * The switch over the scaling mode. Fill and fit pick their branch by
   * `tw / th > iw / ih`, so equal aspect ratios take the height-driven
   * branch of fill and the width-driven branch of fit.
   */
  function Compute(tw: real, th: real, iw: real, ih: real, mode: ScalingMode): (t: Transform)
    requires Positive(tw, th, iw, ih)
    ensures t.repeat <==> mode == Tile
    ensures t.scaleX > 0.0 && t.scaleY > 0.0
    ensures mode != Stretch ==> t.scaleX == t.scaleY
  {
    match mode
    case Stretch =>
      Transform(tw / iw, th / ih, 0.0, 0.0, false)
    case Fill =>
      if tw / th > iw / ih then
        var scale := tw / iw;
        Transform(scale, scale, 0.0, th / 2.0 / scale - ih / 2.0, false)
      else
        var scale := th / ih;
        Transform(scale, scale, tw / 2.0 / scale - iw / 2.0, 0.0, false)
    case Fit =>
      if tw / th > iw / ih then
        var scale := th / ih;
        Transform(scale, scale, tw / 2.0 / scale - iw / 2.0, 0.0, false)
      else
        var scale := tw / iw;
        Transform(scale, scale, 0.0, th / 2.0 / scale - ih / 2.0, false)
    case Center =>
      Transform(1.0, 1.0, tw / 2.0 - iw / 2.0, th / 2.0 - ih / 2.0, false)
    case Tile =>
      Transform(1.0, 1.0, 0.0, 0.0, true)
  }

  /** Where one copy of the image lands on the surface under a transform. */
  function ImageRect(t: Transform, iw: real, ih: real): (r: Rect) {
    Rect(t.offsetX * t.scaleX, t.offsetY * t.scaleY,
         (t.offsetX + iw) * t.scaleX, (t.offsetY + ih) * t.scaleY)
  }

  /** The image reaches every edge of the target: no uncovered border. */
  predicate Covers(r: Rect, tw: real, th: real) {
    r.x0 <= 0.0 && r.y0 <= 0.0 && tw <= r.x1 && th <= r.y1
  }

  /** The image lies inside the target: nothing is cropped. */
  predicate Inside(r: Rect, tw: real, th: real) {
    0.0 <= r.x0 && 0.0 <= r.y0 && r.x1 <= tw && r.y1 <= th
  }

  /** The image's centre is the target's centre. */
  predicate Centered(r: Rect, tw: real, th: real) {
    r.x0 + r.x1 == tw && r.y0 + r.y1 == th
  }

  /** One axis of the scaled image matches the target exactly. */
  predicate Tight(t: Transform, tw: real, th: real, iw: real, ih: real) {
    t.scaleX * iw == tw || t.scaleY * ih == th
  }

  /**
   * What each mode promises, stated on the picture rather than on the
   * formulas: stretch maps the image onto the target exactly; fill covers it
   * with one scale, fit fits inside it with one scale, both centred and
   * touching on one axis; center keeps the natural size and centres; tile
   * keeps the natural size at the origin and repeats.
   */
  predicate Meets(mode: ScalingMode, t: Transform, tw: real, th: real, iw: real, ih: real) {
    match mode
    case Stretch =>
      !t.repeat && t.scaleX > 0.0 && t.scaleY > 0.0 && ImageRect(t, iw, ih) == Rect(0.0, 0.0, tw, th)
    case Fill =>
      !t.repeat && t.scaleX == t.scaleY && Covers(ImageRect(t, iw, ih), tw, th)
      && Centered(ImageRect(t, iw, ih), tw, th) && Tight(t, tw, th, iw, ih)
    case Fit =>
      !t.repeat && t.scaleX == t.scaleY && t.scaleX > 0.0 && Inside(ImageRect(t, iw, ih), tw, th)
      && Centered(ImageRect(t, iw, ih), tw, th) && Tight(t, tw, th, iw, ih)
    case Center =>
      !t.repeat && t.scaleX == 1.0 && t.scaleY == 1.0 && Centered(ImageRect(t, iw, ih), tw, th)
    case Tile =>
      t == Transform(1.0, 1.0, 0.0, 0.0, true)
  }

  // ---- real arithmetic helpers ----

  lemma DivMul(a: real, b: real)
    requires b != 0.0
    ensures a / b * b == a
  {
  }

  /** Comparing aspect ratios is comparing cross products. */
  lemma RatioOrder(tw: real, th: real, iw: real, ih: real)
    requires Positive(tw, th, iw, ih)
    ensures tw / th > iw / ih <==> tw * ih > iw * th
    ensures tw / iw > th / ih <==> tw * ih > iw * th
    ensures tw / th == iw / ih <==> tw * ih == iw * th
    ensures tw / iw == th / ih <==> tw * ih == iw * th
  {
    assert tw / th * (th * ih) == tw * ih;
    assert iw / ih * (th * ih) == iw * th;
    assert tw / iw * (iw * ih) == tw * ih;
    assert th / ih * (iw * ih) == iw * th;
  }

  // ---- what each mode computes ----

  /** Stretch maps the image edge to edge, each axis on its own scale. */
  lemma StretchExact(tw: real, th: real, iw: real, ih: real)
    requires Positive(tw, th, iw, ih)
    ensures var t := Compute(tw, th, iw, ih, Stretch);
      t.scaleX * iw == tw && t.scaleY * ih == th && t.offsetX == 0.0 && t.offsetY == 0.0
      && Meets(Stretch, t, tw, th, iw, ih)
  {
    DivMul(tw, iw);
    DivMul(th, ih);
  }

  /** The offset that centres `size` scaled by `s` on `target`, as the program writes it. */
  function Centering(target: real, size: real, s: real): (o: real)
    requires s > 0.0
  {
    target / 2.0 / s - size / 2.0
  }

  /**
   * One axis under the centring offset: the image's two edges sum to the
   * target, and the offset is zero exactly when the scaled size is the target.
   */
  lemma CenteredAxis(target: real, size: real, s: real)
    requires s > 0.0 && size > 0.0
    ensures var o := Centering(target, size, s);
      o * s + (o + size) * s == target
      && (o == 0.0 <==> size * s == target)
      && (o <= 0.0 <==> size * s >= target)
  {
    var o := Centering(target, size, s);
    var q := target / s;
    DivMul(target, s);
    assert target / 2.0 / s == q / 2.0;
    assert o == (q - size) / 2.0;
    assert o * s == (q * s - size * s) / 2.0;
    assert o * s == (target - size * s) / 2.0;
    assert (o + size) * s == o * s + size * s;
    if size * s >= target {
      assert q * s <= size * s;
    }
    if size * s < target {
      assert q * s > size * s;
    }
  }

  /** Scaling by the width ratio matches the widths and orders the heights like the aspect ratios. */
  lemma WidthScale(tw: real, th: real, iw: real, ih: real)
    requires Positive(tw, th, iw, ih)
    ensures tw / iw > 0.0 && tw / iw * iw == tw
    ensures tw / iw * ih > th <==> tw * ih > iw * th
    ensures tw / iw * ih == th <==> tw * ih == iw * th
  {
    var s := tw / iw;
    DivMul(tw, iw);
    assert s * ih * iw == tw * ih;
    assert th * iw == iw * th;
  }

  /** Scaling by the height ratio matches the heights and orders the widths like the aspect ratios. */
  lemma HeightScale(tw: real, th: real, iw: real, ih: real)
    requires Positive(tw, th, iw, ih)
    ensures th / ih > 0.0 && th / ih * ih == th
    ensures th / ih * iw > tw <==> iw * th > tw * ih
    ensures th / ih * iw == tw <==> tw * ih == iw * th
  {
    var s := th / ih;
    DivMul(th, ih);
    assert s * iw * ih == th * iw;
    assert tw * ih == ih * tw;
  }

  /** The two edges of a scaled image are `size * s` apart. */
  lemma Span(o: real, size: real, s: real)
    ensures (o + size) * s - o * s == size * s
  {
  }

  /** A uniform scale with centring offsets on both axes puts the image's centre on the target's. */
  lemma UniformCentered(tw: real, th: real, iw: real, ih: real, s: real)
    requires Positive(tw, th, iw, ih) && s > 0.0
    ensures var r := ImageRect(Transform(s, s, Centering(tw, iw, s), Centering(th, ih, s), false), iw, ih);
      Centered(r, tw, th) && r.x1 - r.x0 == iw * s && r.y1 - r.y0 == ih * s
      && (Centering(tw, iw, s) <= 0.0 <==> iw * s >= tw)
      && (Centering(th, ih, s) <= 0.0 <==> ih * s >= th)
      && (Centering(tw, iw, s) >= 0.0 <==> iw * s <= tw)
      && (Centering(th, ih, s) >= 0.0 <==> ih * s <= th)
  {
    CenteredAxis(tw, iw, s);
    CenteredAxis(th, ih, s);
    Span(Centering(tw, iw, s), iw, s);
    Span(Centering(th, ih, s), ih, s);
  }

  /**
   * Fill's scale is the larger axis ratio; the offsets are the centring
   * ones, the literal 0 being the centring offset on the tight axis.
   */
  lemma FillScale(tw: real, th: real, iw: real, ih: real)
    requires Positive(tw, th, iw, ih)
    ensures var t := Compute(tw, th, iw, ih, Fill);
      var s := t.scaleX;
      s == Max(tw / iw, th / ih) && s > 0.0
      && s * iw >= tw && s * ih >= th && (s * iw == tw || s * ih == th)
      && t == Transform(s, s, Centering(tw, iw, s), Centering(th, ih, s), false)
  {
    var s := Compute(tw, th, iw, ih, Fill).scaleX;
    RatioOrder(tw, th, iw, ih);
    if tw / th > iw / ih {
      WidthScale(tw, th, iw, ih);
      CenteredAxis(tw, iw, s);
    } else {
      HeightScale(tw, th, iw, ih);
      CenteredAxis(th, ih, s);
    }
  }

  /** Fit's scale is the smaller axis ratio, with centring offsets as for fill. */
  lemma FitScale(tw: real, th: real, iw: real, ih: real)
    requires Positive(tw, th, iw, ih)
    ensures var t := Compute(tw, th, iw, ih, Fit);
      var s := t.scaleX;
      s == Min(tw / iw, th / ih) && s > 0.0
      && s * iw <= tw && s * ih <= th && (s * iw == tw || s * ih == th)
      && t == Transform(s, s, Centering(tw, iw, s), Centering(th, ih, s), false)
  {
    var s := Compute(tw, th, iw, ih, Fit).scaleX;
    RatioOrder(tw, th, iw, ih);
    if tw / th > iw / ih {
      HeightScale(tw, th, iw, ih);
      CenteredAxis(th, ih, s);
    } else {
      WidthScale(tw, th, iw, ih);
      CenteredAxis(tw, iw, s);
    }
  }

  /**
   * Fill scales by the larger of the two axis ratios, so the image covers
   * the target, is centred on it and is cropped on one axis only.
   */
  lemma FillCovers(tw: real, th: real, iw: real, ih: real)
    requires Positive(tw, th, iw, ih)
    ensures var t := Compute(tw, th, iw, ih, Fill);
      Meets(Fill, t, tw, th, iw, ih) && t.scaleX == Max(tw / iw, th / ih)
      && (t.offsetX == 0.0 || t.offsetY == 0.0) && t.offsetX <= 0.0 && t.offsetY <= 0.0
  {
    FillScale(tw, th, iw, ih);
    var s := Compute(tw, th, iw, ih, Fill).scaleX;
    UniformCentered(tw, th, iw, ih, s);
    CenteredAxis(tw, iw, s);
    CenteredAxis(th, ih, s);
  }

  /**
   * Fit scales by the smaller of the two axis ratios, so the whole image is
   * visible, centred, with a border on one axis only.
   */
  lemma FitInside(tw: real, th: real, iw: real, ih: real)
    requires Positive(tw, th, iw, ih)
    ensures var t := Compute(tw, th, iw, ih, Fit);
      Meets(Fit, t, tw, th, iw, ih) && t.scaleX == Min(tw / iw, th / ih)
      && (t.offsetX == 0.0 || t.offsetY == 0.0) && t.offsetX >= 0.0 && t.offsetY >= 0.0
  {
    FitScale(tw, th, iw, ih);
    var s := Compute(tw, th, iw, ih, Fit).scaleX;
    UniformCentered(tw, th, iw, ih, s);
    CenteredAxis(tw, iw, s);
    CenteredAxis(th, ih, s);
  }

  /** Center and tile draw the image at its natural size. */
  lemma CenterAndTileUnscaled(tw: real, th: real, iw: real, ih: real)
    requires Positive(tw, th, iw, ih)
    ensures Meets(Center, Compute(tw, th, iw, ih, Center), tw, th, iw, ih)
    ensures Meets(Tile, Compute(tw, th, iw, ih, Tile), tw, th, iw, ih)
  {
  }

  /** Every mode's transform keeps that mode's promise. */
  lemma ComputeMeets(tw: real, th: real, iw: real, ih: real, mode: ScalingMode)
    requires Positive(tw, th, iw, ih)
    ensures Meets(mode, Compute(tw, th, iw, ih, mode), tw, th, iw, ih)
  {
    match mode
    case Stretch => StretchExact(tw, th, iw, ih);
    case Fill => FillCovers(tw, th, iw, ih);
    case Fit => FitInside(tw, th, iw, ih);
    case Center => CenterAndTileUnscaled(tw, th, iw, ih);
    case Tile => CenterAndTileUnscaled(tw, th, iw, ih);
  }

  // ---- each promise has exactly one transform that keeps it ----

  /** Two offsets that centre the same scaled size on the same target are equal. */
  lemma CenteringUnique(target: real, size: real, s: real, o: real, p: real)
    requires s > 0.0
    requires o * s + (o + size) * s == target && p * s + (p + size) * s == target
    ensures o == p
  {
    assert (2.0 * o + size) * s == (2.0 * p + size) * s;
  }

  lemma MulCancelLe(a: real, b: real, c: real)
    requires c > 0.0 && a * c <= b * c
    ensures a <= b
  {
  }

  /** Among scales that cover both axes, one that is tight on an axis is the smallest. */
  lemma CoverScaleUnique(tw: real, th: real, iw: real, ih: real, s: real, r: real)
    requires Positive(tw, th, iw, ih)
    requires s * iw >= tw && s * ih >= th && (s * iw == tw || s * ih == th)
    requires r * iw >= tw && r * ih >= th && (r * iw == tw || r * ih == th)
    ensures s == r
  {
    if s * iw == tw { MulCancelLe(s, r, iw); } else { MulCancelLe(s, r, ih); }
    if r * iw == tw { MulCancelLe(r, s, iw); } else { MulCancelLe(r, s, ih); }
  }

  /** Among scales that fit both axes, one that is tight on an axis is the largest. */
  lemma InsideScaleUnique(tw: real, th: real, iw: real, ih: real, s: real, r: real)
    requires Positive(tw, th, iw, ih)
    requires s * iw <= tw && s * ih <= th && (s * iw == tw || s * ih == th)
    requires r * iw <= tw && r * ih <= th && (r * iw == tw || r * ih == th)
    ensures s == r
  {
    if s * iw == tw { MulCancelLe(r, s, iw); } else { MulCancelLe(r, s, ih); }
    if r * iw == tw { MulCancelLe(s, r, iw); } else { MulCancelLe(s, r, ih); }
  }

  lemma FillUnique(tw: real, th: real, iw: real, ih: real, t: Transform, u: Transform)
    requires Positive(tw, th, iw, ih)
    requires Meets(Fill, t, tw, th, iw, ih) && Meets(Fill, u, tw, th, iw, ih)
    ensures t == u
  {
    var s, r := t.scaleX, u.scaleX;
    Span(t.offsetX, iw, s); Span(t.offsetY, ih, s);
    Span(u.offsetX, iw, r); Span(u.offsetY, ih, r);
    CoverScaleUnique(tw, th, iw, ih, s, r);
    CenteringUnique(tw, iw, s, t.offsetX, u.offsetX);
    CenteringUnique(th, ih, s, t.offsetY, u.offsetY);
  }

  lemma FitUnique(tw: real, th: real, iw: real, ih: real, t: Transform, u: Transform)
    requires Positive(tw, th, iw, ih)
    requires Meets(Fit, t, tw, th, iw, ih) && Meets(Fit, u, tw, th, iw, ih)
    ensures t == u
  {
    var s, r := t.scaleX, u.scaleX;
    Span(t.offsetX, iw, s); Span(t.offsetY, ih, s);
    Span(u.offsetX, iw, r); Span(u.offsetY, ih, r);
    InsideScaleUnique(tw, th, iw, ih, s, r);
    CenteringUnique(tw, iw, s, t.offsetX, u.offsetX);
    CenteringUnique(th, ih, s, t.offsetY, u.offsetY);
  }

  lemma StretchUnique(tw: real, th: real, iw: real, ih: real, t: Transform, u: Transform)
    requires Positive(tw, th, iw, ih)
    requires Meets(Stretch, t, tw, th, iw, ih) && Meets(Stretch, u, tw, th, iw, ih)
    ensures t == u
  {
    assert t.scaleX * iw == u.scaleX * iw && t.scaleY * ih == u.scaleY * ih;
  }

  /**
   * The transform is determined by its mode's promise: any transform that
   * keeps it is the one computed.
   */
  lemma MeetsOnlyCompute(tw: real, th: real, iw: real, ih: real, mode: ScalingMode, t: Transform)
    requires Positive(tw, th, iw, ih)
    requires Meets(mode, t, tw, th, iw, ih)
    ensures t == Compute(tw, th, iw, ih, mode)
  {
    var c := Compute(tw, th, iw, ih, mode);
    ComputeMeets(tw, th, iw, ih, mode);
    match mode
    case Stretch => StretchUnique(tw, th, iw, ih, t, c);
    case Fill => FillUnique(tw, th, iw, ih, t, c);
    case Fit => FitUnique(tw, th, iw, ih, t, c);
    case Center => CenteringUnique(tw, iw, 1.0, t.offsetX, c.offsetX);
                   CenteringUnique(th, ih, 1.0, t.offsetY, c.offsetY);
    case Tile =>
  }

  /**
   * Fill and fit agree exactly when the aspect ratios are equal; the tie
   * goes to the height-driven scale with no offset at all.
   */
  lemma FillFitCoincide(tw: real, th: real, iw: real, ih: real)
    requires Positive(tw, th, iw, ih)
    ensures Compute(tw, th, iw, ih, Fill) == Compute(tw, th, iw, ih, Fit) <==> tw / th == iw / ih
    ensures tw / th == iw / ih ==>
      Compute(tw, th, iw, ih, Fill) == Transform(th / ih, th / ih, 0.0, 0.0, false)
  {
    var f, g := Compute(tw, th, iw, ih, Fill), Compute(tw, th, iw, ih, Fit);
    RatioOrder(tw, th, iw, ih);
    FillCovers(tw, th, iw, ih);
    FitInside(tw, th, iw, ih);
    if tw / th == iw / ih {
      HeightScale(tw, th, iw, ih);
      CenteredAxis(tw, iw, f.scaleX);
      CenteredAxis(th, ih, f.scaleX);
      assert f == Transform(th / ih, th / ih, 0.0, 0.0, false);
      assert Meets(Fit, f, tw, th, iw, ih);
      FitUnique(tw, th, iw, ih, f, g);
    }
  }

  /** Two worked cases: a same-ratio fill and a pillarboxed fit on a 1920x1080 target. */
  lemma PlacementExamples()
    ensures Compute(1920.0, 1080.0, 1280.0, 720.0, Fill) == Transform(1.5, 1.5, 0.0, 0.0, false)
    ensures Compute(1920.0, 1080.0, 800.0, 600.0, Fit) == Transform(1.8, 1.8, 400.0 / 3.0, 0.0, false)
  {
  }
}
