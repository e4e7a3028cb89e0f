/**
 Repair of a bounding box before an image is zoomed in: clamped to the image, enlarged around its
 centre when a side is too short, and rounded outwards. Coordinates are real numbers.
 */
module ZoomBox {
  import opened Wrappers

  const MIN_DIMENSION := 28.0

  datatype Box = Box(left: real, top: real, right: real, bottom: real)

  function Min(a: real, b: real): real {
    if b < a then b else a
  }

  function Max(a: real, b: real): real {
    if b > a then b else a
  }

  function Ceil(x: real): int {
    -((-x).Floor)
  }

  function Width(b: Box): real {
    b.right - b.left
  }

  function Height(b: Box): real {
    b.bottom - b.top
  }

  // ---------- the reference ----------

  /** Non-empty and at most 100 times as long as wide. */
  predicate IsValid(b: Box) {
    b.left < b.right && b.top < b.bottom && Max(Height(b), Width(b)) <= 100.0 * Min(Height(b), Width(b))
  }

  function ClampTo(b: Box, width: nat, height: nat): Box {
    Box(Max(0.0, b.left), Max(0.0, b.top), Min(width as real, b.right), Min(height as real, b.bottom))
  }

  function Scaled(size: real, factor: real): real {
    size * factor
  }

  function Ratio(a: real, b: real): real
    requires b != 0.0
  {
    a / b
  }

  /** The factor that brings the short side to MIN_DIMENSION, as far as the image allows. */
  function Scale(w: real, h: real, width: nat, height: nat): real
    requires w > 0.0 && h > 0.0
  {
    Min(Ratio(MIN_DIMENSION, Min(w, h)), Min(Ratio(width as real, w), Ratio(height as real, h)))
  }

  /** Where an interval of length `size` around `centre` starts once it is shifted into 0..limit. */
  function Place(centre: real, size: real, limit: real): real {
    Min(Max(0.0, centre - size / 2.0), limit - size)
  }

  function Enlarge(b: Box, width: nat, height: nat): Box
    requires Width(b) > 0.0 && Height(b) > 0.0
  {
    var factor := Scale(Width(b), Height(b), width, height);
    var w, h := Scaled(Width(b), factor), Scaled(Height(b), factor);
    var left := Place((b.left + b.right) / 2.0, w, width as real);
    var top := Place((b.top + b.bottom) / 2.0, h, height as real);
    Box(left, top, left + w, top + h)
  }

  function RoundOut(b: Box): Box {
    Box(b.left.Floor as real, b.top.Floor as real, Ceil(b.right) as real, Ceil(b.bottom) as real)
  }

  predicate LargeEnough(b: Box) {
    && b.bottom.Floor - b.top.Floor >= MIN_DIMENSION.Floor
    && b.right.Floor - b.left.Floor >= MIN_DIMENSION.Floor
  }

  /** The box that is meant: the clamped one if its sides are long enough, else the enlarged one. */
  function Repair(bbox: Box, width: nat, height: nat): Option<Box> {
    var b := ClampTo(bbox, width, height);
    if !IsValid(b) then None
    else
      var r := if Height(b) < MIN_DIMENSION || Width(b) < MIN_DIMENSION
               then RoundOut(Enlarge(b, width, height)) else b;
      if IsValid(r) && LargeEnough(r) then Some(r) else None
  }

  // ---------- products and quotients ----------

  lemma {:induction false} Times(a: real, b: real, c: real)
    requires c > 0.0 && a < b
    ensures a * c < b * c
  {
    assert (b - a) * c > 0.0;
  }

  lemma {:induction false} TimesLe(a: real, b: real, c: real)
    requires c > 0.0 && a <= b
    ensures a * c <= b * c
  {
    if a < b {
      Times(a, b, c);
    }
  }

  lemma {:induction false} Regroup(a: real, b: real, c: real)
    ensures (a * b) * c == a * (b * c)
  {
  }

  lemma {:induction false} CancelLe(a: real, b: real, c: real)
    requires c > 0.0 && a * c <= b * c
    ensures a <= b
  {
    if a > b {
      Times(b, a, c);
    }
  }

  lemma {:induction false} CancelLess(a: real, b: real, c: real)
    requires c > 0.0 && a * c < b * c
    ensures a < b
  {
    if a > b {
      Times(b, a, c);
    }
  }

  lemma {:induction false} Quotient(a: real, b: real, k: real)
    requires b > 0.0
    ensures a / b <= k <==> a <= k * b
  {
    var q := a / b;
    assert q * b == a;
    if a <= k * b {
      CancelLe(q, k, b);
    } else {
      CancelLess(k, q, b);
    }
  }

  lemma {:induction false} RatioPositive(a: real, b: real)
    requires a > 0.0 && b > 0.0
    ensures Ratio(a, b) > 0.0
  {
    CancelLess(0.0, a / b, b);
  }

  /** Scaling the first side down to `limit` scales both sides by `limit / a` in all. */
  lemma {:induction false} FitScale(a: real, b: real, factor: real, limit: real)
    requires a > 0.0 && factor > 0.0 && limit > 0.0 && Scaled(a, factor) > limit
    ensures Scaled(a, Ratio(limit, a)) == limit
    ensures Scaled(Scaled(b, factor), Ratio(limit, Scaled(a, factor))) == Scaled(b, Ratio(limit, a))
    ensures 0.0 < Ratio(limit, a) < factor
  {
    var q, p := limit / a, limit / (a * factor);
    assert p * (a * factor) == limit;
    Regroup(p, factor, a);
    CancelLe(p * factor, q, a);
    CancelLe(q, p * factor, a);
    CancelLess(0.0, q, a);
    CancelLess(q, factor, a);
    Regroup(b, factor, p);
  }

  lemma {:induction false} NoScale(a: real, factor: real, limit: real)
    requires a > 0.0 && Scaled(a, factor) <= limit
    ensures factor <= Ratio(limit, a)
  {
    CancelLe(factor, limit / a, a);
  }

  // ---------- the step-by-step code ----------

  /** _validate_bbox */
  method ValidateBBox(left: real, top: real, right: real, bottom: real) returns (ok: bool)
    ensures ok == IsValid(Box(left, top, right, bottom))
    ensures ok <==> left < right && top < bottom
                    && right - left <= 100.0 * (bottom - top) && bottom - top <= 100.0 * (right - left)
  {
    if !(left < right && top < bottom) {
      return false;
    }
    var height := bottom - top;
    var width := right - left;
    if Min(height, width) == 0.0 {
      return false;
    }
    Quotient(Max(height, width), Min(height, width), 100.0);
    if Max(height, width) / Min(height, width) > 100.0 {
      return false;
    }
    return true;
  }

  /** The two successive scale-downs: the size of the enlarged box. */
  method TargetSize(w: real, h: real, width: nat, height: nat) returns (targetWidth: real, targetHeight: real)
    requires 0.0 < w <= width as real && 0.0 < h <= height as real
    ensures targetWidth == Scaled(w, Scale(w, h, width, height))
    ensures targetHeight == Scaled(h, Scale(w, h, width, height))
  {
    hide Scaled, Ratio;
    var ratio := Ratio(MIN_DIMENSION, Min(w, h));
    targetWidth := Scaled(w, ratio);
    targetHeight := Scaled(h, ratio);
    ghost var factor := ratio;
    RatioPositive(MIN_DIMENSION, Min(w, h));
    if targetWidth > width as real {
      FitScale(w, h, ratio, width as real);
      var scaleDown := Ratio(width as real, targetWidth);
      targetWidth := width as real;
      targetHeight := Scaled(targetHeight, scaleDown);
      factor := Ratio(width as real, w);
    } else {
      NoScale(w, ratio, width as real);
    }
    if targetHeight > height as real {
      FitScale(h, w, factor, height as real);
      var scaleDown := Ratio(height as real, targetHeight);
      targetHeight := height as real;
      targetWidth := Scaled(targetWidth, scaleDown);
      factor := Ratio(height as real, h);
    } else {
      NoScale(h, factor, height as real);
    }
  }

  /** The part of _maybe_resize_bbox that enlarges a box around its centre and rounds it. */
  method ResizeBBox(left: real, top: real, right: real, bottom: real, imageWidth: nat, imageHeight: nat)
    returns (resized: Box)
    requires 0.0 <= left < right <= imageWidth as real && 0.0 <= top < bottom <= imageHeight as real
    ensures resized == RoundOut(Enlarge(Box(left, top, right, bottom), imageWidth, imageHeight))
  {
    var height := bottom - top;
    var width := right - left;
    var centerX := (left + right) / 2.0;
    var centerY := (top + bottom) / 2.0;
    var targetWidth, targetHeight := TargetSize(width, height, imageWidth, imageHeight);
    hide Scale, Scaled, Ratio;
    var newHalfWidth := targetWidth / 2.0;
    var newHalfHeight := targetHeight / 2.0;
    var newLeft := centerX - newHalfWidth;
    var newTop := centerY - newHalfHeight;
    if newLeft < 0.0 {
      newLeft := 0.0;
    }
    if newTop < 0.0 {
      newTop := 0.0;
    }
    if newLeft + targetWidth > imageWidth as real {
      newLeft := imageWidth as real - targetWidth;
    }
    if newTop + targetHeight > imageHeight as real {
      newTop := imageHeight as real - targetHeight;
    }
    var newRight := newLeft + targetWidth;
    var newBottom := newTop + targetHeight;
    resized := Box(newLeft.Floor as real, newTop.Floor as real, Ceil(newRight) as real, Ceil(newBottom) as real);
  }

  /** _maybe_resize_bbox computes the reference. */
  method MaybeResizeBBox(bbox: Box, imageWidth: nat, imageHeight: nat) returns (result: Option<Box>)
    ensures result == Repair(bbox, imageWidth, imageHeight)
  {
    hide RoundOut, Enlarge;
    var left := Max(0.0, bbox.left);
    var top := Max(0.0, bbox.top);
    var right := Min(imageWidth as real, bbox.right);
    var bottom := Min(imageHeight as real, bbox.bottom);
    var ok := ValidateBBox(left, top, right, bottom);
    if !ok {
      return None;
    }
    var current := Box(left, top, right, bottom);
    var height := bottom - top;
    var width := right - left;
    if height < MIN_DIMENSION || width < MIN_DIMENSION {
      current := ResizeBBox(left, top, right, bottom, imageWidth, imageHeight);
    }
    ok := ValidateBBox(current.left, current.top, current.right, current.bottom);
    if !ok {
      return None;
    }
    var finalHeight := current.bottom.Floor - current.top.Floor;
    var finalWidth := current.right.Floor - current.left.Floor;
    if finalHeight < MIN_DIMENSION.Floor || finalWidth < MIN_DIMENSION.Floor {
      return None;
    }
    return Some(current);
  }

  // ---------- what the repaired box is good for ----------

  predicate Contains(outer: Box, inner: Box) {
    outer.left <= inner.left && outer.top <= inner.top && inner.right <= outer.right && inner.bottom <= outer.bottom
  }

  function Image(width: nat, height: nat): Box {
    Box(0.0, 0.0, width as real, height as real)
  }

  lemma {:induction false} ScaleBounds(w: real, h: real, width: nat, height: nat)
    requires 0.0 < w <= width as real && 0.0 < h <= height as real
    requires w < MIN_DIMENSION || h < MIN_DIMENSION
    ensures var f := Scale(w, h, width, height);
            f >= 1.0 && w <= Scaled(w, f) <= width as real && h <= Scaled(h, f) <= height as real
  {
    var f := Scale(w, h, width, height);
    Unit(Min(w, h), MIN_DIMENSION);
    Unit(w, width as real);
    Unit(h, height as real);
    hide Ratio, Scaled;
    Stretch(w, f, width as real);
    Stretch(h, f, height as real);
  }

  lemma {:induction false} Unit(a: real, limit: real)
    requires 0.0 < a <= limit
    ensures 1.0 <= Ratio(limit, a)
  {
    NoScale(a, 1.0, limit);
  }

  lemma {:induction false} Stretch(a: real, f: real, limit: real)
    requires a > 0.0 && 1.0 <= f <= Ratio(limit, a)
    ensures a <= Scaled(a, f) <= limit
  {
    assert a * (f - 1.0) >= 0.0;
    assert limit / a * a == limit;
    assert (limit / a - f) * a >= 0.0;
  }

  /** An interval shifted into the image still covers what it was grown from. */
  lemma {:induction false} PlaceCovers(lo: real, hi: real, size: real, limit: real)
    requires 0.0 <= lo < hi <= limit && hi - lo <= size <= limit
    ensures var p := Place((lo + hi) / 2.0, size, limit); 0.0 <= p <= lo && hi <= p + size <= limit
  {
  }

  lemma {:induction false} EnlargeCovers(b: Box, width: nat, height: nat)
    requires Contains(Image(width, height), b) && Width(b) > 0.0 && Height(b) > 0.0
    requires Width(b) < MIN_DIMENSION || Height(b) < MIN_DIMENSION
    ensures var e := Enlarge(b, width, height); Contains(e, b) && Contains(Image(width, height), e)
  {
    hide Scale, Place, Scaled;
    var f := Scale(Width(b), Height(b), width, height);
    ScaleBounds(Width(b), Height(b), width, height);
    PlaceCovers(b.left, b.right, Scaled(Width(b), f), width as real);
    PlaceCovers(b.top, b.bottom, Scaled(Height(b), f), height as real);
  }

  lemma {:induction false} RoundOutCovers(b: Box, width: nat, height: nat)
    requires Contains(Image(width, height), b)
    ensures Contains(RoundOut(b), b) && Contains(Image(width, height), RoundOut(b))
  {
    FloorBetween(b.left, 0);
    FloorBetween(b.top, 0);
    FloorBetween(-b.right, -(width as int));
    FloorBetween(-b.bottom, -(height as int));
  }

  lemma {:induction false} FloorBetween(x: real, k: int)
    requires k as real <= x
    ensures k <= x.Floor && x.Floor as real <= x
  {
  }

  lemma {:induction false} RepairCovers(bbox: Box, width: nat, height: nat)
    requires Repair(bbox, width, height).Some?
    ensures var r := Repair(bbox, width, height).value;
            Contains(Image(width, height), r) && Contains(r, ClampTo(bbox, width, height))
  {
    hide Enlarge, LargeEnough, RoundOut;
    var b := ClampTo(bbox, width, height);
    if Height(b) < MIN_DIMENSION || Width(b) < MIN_DIMENSION {
      EnlargeCovers(b, width, height);
      RoundOutCovers(Enlarge(b, width, height), width, height);
    }
  }

  predicate HasPoint(b: Box, x: real, y: real) {
    b.left <= x <= b.right && b.top <= y <= b.bottom
  }

  /** The clamped box is the part of the box that lies in the image. */
  lemma {:induction false} ClampIsIntersection(bbox: Box, width: nat, height: nat, x: real, y: real)
    ensures HasPoint(ClampTo(bbox, width, height), x, y) <==>
              HasPoint(bbox, x, y) && 0.0 <= x <= width as real && 0.0 <= y <= height as real
  {
  }

  /** A box inside the image is its own clamp. */
  lemma {:induction false} ClampKeeps(bbox: Box, width: nat, height: nat)
    requires Contains(Image(width, height), bbox)
    ensures ClampTo(bbox, width, height) == bbox
  {
  }

  /** A box whose part in the image is large enough is cut to that part and otherwise left alone. */
  lemma {:induction false} LargeIsKept(bbox: Box, width: nat, height: nat)
    requires var b := ClampTo(bbox, width, height);
             IsValid(b) && Width(b) >= MIN_DIMENSION && Height(b) >= MIN_DIMENSION
    ensures Repair(bbox, width, height) == Some(ClampTo(bbox, width, height))
    ensures forall x, y :: HasPoint(Repair(bbox, width, height).value, x, y) <==>
              HasPoint(bbox, x, y) && 0.0 <= x <= width as real && 0.0 <= y <= height as real
    ensures Contains(Image(width, height), bbox) ==> Repair(bbox, width, height) == Some(bbox)
  {
    forall x, y
      ensures HasPoint(ClampTo(bbox, width, height), x, y) <==>
                HasPoint(bbox, x, y) && 0.0 <= x <= width as real && 0.0 <= y <= height as real
    {
      ClampIsIntersection(bbox, width, height, x, y);
    }
    if Contains(Image(width, height), bbox) {
      ClampKeeps(bbox, width, height);
    }
    hide ClampTo, Enlarge, RoundOut, Contains, HasPoint;
  }

  lemma {:induction false} RepairSides(bbox: Box, width: nat, height: nat)
    requires Repair(bbox, width, height).Some?
    ensures var r := Repair(bbox, width, height).value;
            && IsValid(r) && LargeEnough(r) && Width(r) >= MIN_DIMENSION && Height(r) >= MIN_DIMENSION
  {
    hide Enlarge, IsValid;
  }

  /** A repaired box lies in the image, covers what of the input does, and has the promised sides and shape. */
  lemma {:induction false} RepairSound(bbox: Box, width: nat, height: nat)
    requires Repair(bbox, width, height).Some?
    ensures var r := Repair(bbox, width, height).value;
            && 0.0 <= r.left && r.right <= width as real && 0.0 <= r.top && r.bottom <= height as real
            && (forall x, y :: HasPoint(bbox, x, y) && 0.0 <= x <= width as real && 0.0 <= y <= height as real ==>
                  HasPoint(r, x, y))
            && r.right.Floor - r.left.Floor >= 28 && r.bottom.Floor - r.top.Floor >= 28
            && Width(r) >= MIN_DIMENSION && Height(r) >= MIN_DIMENSION
            && Max(Height(r), Width(r)) / Min(Height(r), Width(r)) <= 100.0
  {
    hide Repair;
    var r := Repair(bbox, width, height).value;
    RepairCovers(bbox, width, height);
    RepairSides(bbox, width, height);
    forall x, y | HasPoint(bbox, x, y) && 0.0 <= x <= width as real && 0.0 <= y <= height as real
      ensures HasPoint(r, x, y)
    {
      ClampIsIntersection(bbox, width, height, x, y);
    }
    hide Contains, ClampTo, HasPoint;
    Quotient(Max(Height(r), Width(r)), Min(Height(r), Width(r)), 100.0);
  }

  /** A repaired box is a fixed point: repairing it again changes nothing. */
  lemma {:induction false} RepairTwice(bbox: Box, width: nat, height: nat)
    requires Repair(bbox, width, height).Some?
    ensures Repair(Repair(bbox, width, height).value, width, height) == Repair(bbox, width, height)
  {
    RepairCovers(bbox, width, height);
    RepairSides(bbox, width, height);
    var r := Repair(bbox, width, height).value;
    assert ClampTo(r, width, height) == r;
    hide Enlarge, IsValid, RoundOut, LargeEnough, ClampTo, Contains;
  }

  /** The clamped box, brought to a short side of 28, fits the image. */
  predicate Fits(b: Box, width: nat, height: nat) {
    var short := Min(Width(b), Height(b));
    && short > 0.0
    && Scaled(Width(b), Ratio(MIN_DIMENSION, short)) <= width as real
    && Scaled(Height(b), Ratio(MIN_DIMENSION, short)) <= height as real
  }

  lemma {:induction false} ShortAndLong(w: real, h: real, width: nat, height: nat)
    requires 0.0 < w <= width as real && 0.0 < h <= height as real
    requires Fits(Box(0.0, 0.0, w, h), width, height)
    ensures var f := Scale(w, h, width, height);
            && Min(Scaled(w, f), Scaled(h, f)) == MIN_DIMENSION
            && Max(Scaled(w, f), Scaled(h, f)) >= MIN_DIMENSION
            && (28.0 * Max(w, h) <= 2798.0 * Min(w, h) ==> Max(Scaled(w, f), Scaled(h, f)) <= 2798.0)
  {
    var short, long := Min(w, h), Max(w, h);
    var f := Ratio(MIN_DIMENSION, short);
    NoScale(w, f, width as real);
    NoScale(h, f, height as real);
    assert Scaled(short, f) == MIN_DIMENSION;
    RatioPositive(MIN_DIMENSION, short);
    LongSide(short, long, f);
  }

  lemma {:induction false} LongSide(short: real, long: real, f: real)
    requires 0.0 < short <= long && Scaled(short, f) == MIN_DIMENSION && f > 0.0
    ensures Scaled(long, f) >= MIN_DIMENSION
    ensures 28.0 * long <= 2798.0 * short ==> Scaled(long, f) <= 2798.0
  {
    TimesLe(short, long, f);
    if 28.0 * long <= 2798.0 * short {
      TimesLe(28.0 * long, 2798.0 * short, f);
      Regroup(28.0, long, f);
      Regroup(2798.0, short, f);
    }
  }

  lemma {:induction false} Rounded(lo: real, hi: real)
    requires hi - lo >= MIN_DIMENSION
    ensures Ceil(hi) - lo.Floor >= 28 && (Ceil(hi) - lo.Floor) as real < hi - lo + 2.0
  {
  }

  /**
   A valid box is repaired whenever its sides are long enough already, or the enlarged box fits
   the image and the sides differ by a factor of at most 2798 / 28.
   */
  lemma {:induction false} RepairSucceeds(bbox: Box, width: nat, height: nat)
    requires var b := ClampTo(bbox, width, height);
             && IsValid(b)
             && (Min(Width(b), Height(b)) >= MIN_DIMENSION
                 || (Fits(b, width, height) && 28.0 * Max(Width(b), Height(b)) <= 2798.0 * Min(Width(b), Height(b))))
    ensures Repair(bbox, width, height).Some?
  {
    var b := ClampTo(bbox, width, height);
    hide Scale, Place, Scaled, Ratio, Ceil;
    if Min(Width(b), Height(b)) < MIN_DIMENSION {
      ShortAndLong(Width(b), Height(b), width, height);
      var e := Enlarge(b, width, height);
      Rounded(e.left, e.right);
      Rounded(e.top, e.bottom);
    }
  }

  /** When the enlarged box fits, the only thing that can still fail is the shape of the rounded box. */
  lemma {:induction false} OnlyShapeCanFail(bbox: Box, width: nat, height: nat)
    requires var b := ClampTo(bbox, width, height);
             IsValid(b) && Fits(b, width, height) && Min(Width(b), Height(b)) < MIN_DIMENSION
    ensures var r := RoundOut(Enlarge(ClampTo(bbox, width, height), width, height));
            && LargeEnough(r)
            && (Repair(bbox, width, height).Some? <==> Max(Height(r), Width(r)) <= 100.0 * Min(Height(r), Width(r)))
  {
    var b := ClampTo(bbox, width, height);
    hide Scale, Place, Scaled, Ratio, Ceil;
    ShortAndLong(Width(b), Height(b), width, height);
    var e := Enlarge(b, width, height);
    Rounded(e.left, e.right);
    Rounded(e.top, e.bottom);
  }

  // ---------- exactly which boxes can be repaired ----------

  /** One side of a box, and the size of the image along it. */
  datatype Axis = Axis(lo: real, hi: real, limit: nat)

  function Length(a: Axis): real {
    a.hi - a.lo
  }

  /** Where the side starts once it is grown to `size`. */
  function Start(a: Axis, size: real): real {
    Place((a.lo + a.hi) / 2.0, size, a.limit as real)
  }

  /** The number of pixels that the interval start .. start + size touches. */
  function Pixels(start: real, size: real): int {
    Ceil(start + size) - start.Floor
  }

  function ShortAxis(b: Box, width: nat, height: nat): Axis {
    if Height(b) <= Width(b) then Axis(b.top, b.bottom, height) else Axis(b.left, b.right, width)
  }

  function LongAxis(b: Box, width: nat, height: nat): Axis {
    if Height(b) <= Width(b) then Axis(b.left, b.right, width) else Axis(b.top, b.bottom, height)
  }

  /** The side `a` of a box whose other side grows from `b` to `limit`. */
  function Grown(a: real, limit: real, b: real): real
    requires b > 0.0
  {
    a * limit / b
  }

  /**
   A short side of 28 or more needs no repair. Otherwise the image must be at least 28 along the short
   side. If the long side can grow in proportion, the repair fails only when the short side ends up on
   exactly 28 pixels and the long one on more than 2800; if the image stops it, it must be at least 28
   there too, and the short side, now below 28, must still touch 28 pixels.
   */
  predicate Repairable(short: Axis, long: Axis)
    requires Length(short) > 0.0 && Length(long) > 0.0
  {
    var s, l := Length(short), Length(long);
    s >= MIN_DIMENSION ||
    (short.limit >= 28 &&
     if Grown(l, MIN_DIMENSION, s) <= long.limit as real then
       var p, size := Start(short, MIN_DIMENSION), Grown(l, MIN_DIMENSION, s);
       p != p.Floor as real || Pixels(Start(long, size), size) <= 2800
     else
       var size := Grown(s, long.limit as real, l);
       long.limit >= 28 && Pixels(Start(short, size), size) >= 28)
  }

  /** What the final checks ask of the two sides, counted in pixels. */
  predicate GoodPixels(short: int, long: int) {
    short >= 28 && long >= 28 && long <= 100 * short && short <= 100 * long
  }

  lemma {:induction false} GrownIsScaled(a: real, limit: real, b: real)
    requires b > 0.0
    ensures Scaled(a, Ratio(limit, b)) == Grown(a, limit, b)
    ensures Scaled(b, Ratio(limit, b)) == limit
  {
    var q, r := limit / b, a * limit / b;
    assert q * b == limit && r * b == a * limit;
    Regroup(a, q, b);
    CancelLe(a * q, r, b);
    CancelLe(r, a * q, b);
  }

  /** The factor of Scale, by short and long side. */
  function Factor(short: Axis, long: Axis): real
    requires Length(short) > 0.0 && Length(long) > 0.0
  {
    Min(Ratio(MIN_DIMENSION, Length(short)),
        Min(Ratio(short.limit as real, Length(short)), Ratio(long.limit as real, Length(long))))
  }

  ghost predicate InImage(short: Axis, long: Axis) {
    && 0.0 <= short.lo < short.hi <= short.limit as real
    && 0.0 <= long.lo < long.hi <= long.limit as real
    && Length(short) <= Length(long) <= 100.0 * Length(short)
  }

  /** If the image allows it, the short side becomes 28. */
  lemma {:induction false} FreeFactor(short: Axis, long: Axis)
    requires InImage(short, long) && short.limit >= 28
    requires Grown(Length(long), MIN_DIMENSION, Length(short)) <= long.limit as real
    ensures Scaled(Length(short), Factor(short, long)) == MIN_DIMENSION
    ensures Scaled(Length(long), Factor(short, long)) == Grown(Length(long), MIN_DIMENSION, Length(short)) <= 2800.0
  {
    var s, l := Length(short), Length(long);
    var f := Ratio(MIN_DIMENSION, s);
    GrownIsScaled(l, MIN_DIMENSION, s);
    Quotient(l * MIN_DIMENSION, s, 2800.0);
    hide Scaled, Ratio;
    NoScale(l, f, long.limit as real);
    NoScale(s, f, short.limit as real);
  }

  /** Otherwise the long side fills the image, and the short side stays below 28. */
  lemma {:induction false} LimitedFactor(short: Axis, long: Axis)
    requires InImage(short, long) && short.limit >= 28
    requires Grown(Length(long), MIN_DIMENSION, Length(short)) > long.limit as real
    ensures var size := Grown(Length(short), long.limit as real, Length(long));
            && Scaled(Length(long), Factor(short, long)) == long.limit as real
            && Scaled(Length(short), Factor(short, long)) == size < MIN_DIMENSION
            && long.limit as real <= 100.0 * size
  {
    var s, l, limit := Length(short), Length(long), long.limit as real;
    GrownShrinks(s, l, MIN_DIMENSION, limit);
    LongAtMost(s, l, limit, Grown(s, limit, l));
    GrownIsScaled(s, limit, l);
    hide Scaled, Grown;
    NoScale(s, Ratio(limit, l), short.limit as real);
  }

  lemma {:induction false} GrownShrinks(s: real, l: real, size: real, limit: real)
    requires s > 0.0 && l > 0.0 && Grown(l, size, s) > limit
    ensures Grown(s, limit, l) < size && Ratio(limit, l) < Ratio(size, s)
  {
    Quotient(l * size, s, limit);
    var g, p, q := s * limit / l, limit / l, size / s;
    assert g * l == s * limit && p * l == limit && q * s == size;
    CancelLess(g, size, l);
    Regroup(p, l, s);
    Regroup(q, s, l);
    assert l * s == s * l;
    CancelLess(p, q, l * s) by {
      assert l * s > 0.0;
      assert p * (l * s) == limit * s && q * (l * s) == size * l;
    }
  }

  lemma {:induction false} LongAtMost(s: real, l: real, limit: real, size: real)
    requires s > 0.0 && l > 0.0 && l <= 100.0 * s && size == Grown(s, limit, l) && limit >= 0.0
    ensures limit <= 100.0 * size
  {
    assert size * l == s * limit;
    assert limit * (100.0 * s - l) >= 0.0;
    assert limit * l <= (100.0 * size) * l;
    CancelLe(limit, 100.0 * size, l);
  }

  /** Growing a side keeps it in the image and covers it. */
  lemma {:induction false} StartCovers(a: Axis, size: real)
    requires 0.0 <= a.lo < a.hi <= a.limit as real && Length(a) <= size <= a.limit as real
    ensures var p := Start(a, size); 0.0 <= p <= a.lo && a.hi <= p + size <= a.limit as real
    ensures size <= Pixels(Start(a, size), size) as real < size + 2.0
    ensures Pixels(Start(a, size), size) <= a.limit
  {
    PlaceCovers(a.lo, a.hi, size, a.limit as real);
    PixelsBound(Start(a, size), size, a.limit);
  }

  lemma {:induction false} PixelsBound(p: real, size: real, limit: nat)
    requires 0.0 <= p && p + size <= limit as real
    ensures size <= Pixels(p, size) as real < size + 2.0 && Pixels(p, size) <= limit
  {
    FloorBetween(p, 0);
    FloorBetween(-(p + size), -(limit as int));
  }

  lemma {:induction false} ExactPixels(p: real)
    ensures Pixels(p, MIN_DIMENSION) == if p == p.Floor as real then 28 else 29
  {
  }

  lemma {:induction false} FactorBounds(short: Axis, long: Axis)
    requires InImage(short, long) && Length(short) < MIN_DIMENSION
    ensures Length(short) <= Scaled(Length(short), Factor(short, long)) <= short.limit as real
    ensures Length(long) <= Scaled(Length(long), Factor(short, long)) <= long.limit as real
  {
    var s, l, f := Length(short), Length(long), Factor(short, long);
    Unit(s, MIN_DIMENSION);
    Unit(s, short.limit as real);
    Unit(l, long.limit as real);
    hide Ratio, Scaled;
    Stretch(s, f, short.limit as real);
    Stretch(l, f, long.limit as real);
  }

  lemma {:induction false} FreeDecides(short: int, long: int, whole: bool, size: real)
    requires short == (if whole then 28 else 29) && MIN_DIMENSION <= size <= 2800.0 && size <= long as real < size + 2.0
    ensures GoodPixels(short, long) <==> !whole || long <= 2800
  {
  }

  lemma {:induction false} LimitedDecides(short: int, long: int, size: real, limit: nat)
    requires size <= short as real < size + 2.0 && size < MIN_DIMENSION && limit as real <= 100.0 * size
    requires limit as real <= long as real && long <= limit
    ensures GoodPixels(short, long) <==> limit >= 28 && short >= 28
  {
    assert long == limit;
    assert limit as real <= 100.0 * short as real;
  }

  lemma {:induction false} PixelsDecide(short: Axis, long: Axis)
    requires InImage(short, long) && Length(short) < MIN_DIMENSION
    ensures var f := Factor(short, long);
            var s, l := Scaled(Length(short), f), Scaled(Length(long), f);
            GoodPixels(Pixels(Start(short, s), s), Pixels(Start(long, l), l)) <==> Repairable(short, long)
  {
    var f := Factor(short, long);
    var s, l := Scaled(Length(short), f), Scaled(Length(long), f);
    FactorBounds(short, long);
    GrowthKeepsOrder(Length(short), Length(long), f);
    StartCovers(short, s);
    StartCovers(long, l);
    var m, n := Pixels(Start(short, s), s), Pixels(Start(long, l), l);
    hide Factor, Scaled, Start, Pixels, Grown;
    if short.limit >= 28 {
      if Grown(Length(long), MIN_DIMENSION, Length(short)) <= long.limit as real {
        FreeFactor(short, long);
        ExactPixels(Start(short, MIN_DIMENSION));
        FreeDecides(m, n, Start(short, s) == Start(short, s).Floor as real, l);
      } else {
        LimitedFactor(short, long);
        LimitedDecides(m, n, s, long.limit);
      }
    }
    hide GoodPixels;
  }

  lemma {:induction false} GrowthKeepsOrder(s: real, l: real, f: real)
    requires 0.0 < s <= l && s <= Scaled(s, f)
    ensures Scaled(s, f) <= Scaled(l, f)
  {
    CancelLe(1.0, f, s);
    TimesLe(s, l, f);
  }

  /** A side of the enlarged box lies around the middle of the old one, or against the edge of the image. */
  predicate Centred(a: Axis, start: real, size: real) {
    var centre := (a.lo + a.hi) / 2.0;
    if centre - size / 2.0 < 0.0 then start == 0.0
    else if centre + size / 2.0 > a.limit as real then start == a.limit as real - size
    else start + size / 2.0 == centre
  }

  /** The least integer box around e. */
  predicate Snug(r: Box, e: Box) {
    && r.left == r.left.Floor as real && r.left <= e.left < r.left + 1.0
    && r.top == r.top.Floor as real && r.top <= e.top < r.top + 1.0
    && r.right == r.right.Floor as real && r.right - 1.0 < e.right <= r.right
    && r.bottom == r.bottom.Floor as real && r.bottom - 1.0 < e.bottom <= r.bottom
  }

  /** The sides have the same ratio. */
  predicate SameShape(e: Box, b: Box) {
    Width(e) * Height(b) == Height(e) * Width(b)
  }

  /** The short side has grown to 28, unless a side fills the image first. */
  predicate Grows(e: Box, width: nat, height: nat) {
    var short := Min(Width(e), Height(e));
    && Width(e) <= width as real && Height(e) <= height as real && short <= MIN_DIMENSION
    && (short == MIN_DIMENSION || Width(e) == width as real || Height(e) == height as real)
  }

  lemma {:induction false} EnlargedSides(b: Box, width: nat, height: nat)
    requires Width(b) > 0.0 && Height(b) > 0.0
    ensures var e, f := Enlarge(b, width, height), Scale(Width(b), Height(b), width, height);
            && Width(e) == Scaled(Width(b), f) && Height(e) == Scaled(Height(b), f)
            && e.left == Place((b.left + b.right) / 2.0, Width(e), width as real)
            && e.top == Place((b.top + b.bottom) / 2.0, Height(e), height as real)
  {
    hide Scale, Scaled, Place;
  }

  lemma {:induction false} ScaledShape(e: Box, b: Box, f: real)
    requires Width(e) == Scaled(Width(b), f) && Height(e) == Scaled(Height(b), f)
    ensures SameShape(e, b)
  {
    ScaledBoth(Width(b), Height(b), f);
    hide Width, Height, Scaled;
  }

  lemma {:induction false} ScaledBoth(w: real, h: real, f: real)
    ensures Scaled(w, f) * h == Scaled(h, f) * w
  {
  }

  lemma {:induction false} EnlargeGrows(b: Box, width: nat, height: nat)
    requires IsValid(b) && Contains(Image(width, height), b) && Min(Width(b), Height(b)) < MIN_DIMENSION
    ensures var e := Enlarge(b, width, height);
            && SameShape(e, b) && Grows(e, width, height)
            && Centred(Axis(b.left, b.right, width), e.left, Width(e))
            && Centred(Axis(b.top, b.bottom, height), e.top, Height(e))
  {
    ScaleBounds(Width(b), Height(b), width, height);
    hide Scale, Scaled, Enlarge, Centred, SameShape, Place;
    var e := Enlarge(b, width, height);
    EnlargedSides(b, width, height);
    ScaleReaches(Width(b), Height(b), width, height);
    ScaledShape(e, b, Scale(Width(b), Height(b), width, height));
    PlaceCentred(Axis(b.left, b.right, width), Width(e));
    PlaceCentred(Axis(b.top, b.bottom, height), Height(e));
  }

  /**
   A repaired box with a short side is snug around a box of the same shape, as central as the image
   allows, whose short side is 28 unless a side fills the image first.
   */
  lemma {:induction false} RepairGrows(bbox: Box, width: nat, height: nat) returns (e: Box)
    requires Repair(bbox, width, height).Some?
    requires var b := ClampTo(bbox, width, height); Min(Width(b), Height(b)) < MIN_DIMENSION
    ensures var b := ClampTo(bbox, width, height);
            && Snug(Repair(bbox, width, height).value, e) && SameShape(e, b) && Grows(e, width, height)
            && Centred(Axis(b.left, b.right, width), e.left, Width(e))
            && Centred(Axis(b.top, b.bottom, height), e.top, Height(e))
  {
    var b := ClampTo(bbox, width, height);
    hide SameShape, Grows, Centred, Snug, RoundOut, Enlarge, LargeEnough;
    e := Enlarge(b, width, height);
    EnlargeGrows(b, width, height);
    RoundIsSnug(e);
  }

  lemma {:induction false} ScaleReaches(w: real, h: real, width: nat, height: nat)
    requires 0.0 < w <= width as real && 0.0 < h <= height as real
    ensures var f := Scale(w, h, width, height);
            && Min(Scaled(w, f), Scaled(h, f)) <= MIN_DIMENSION
            && (Min(Scaled(w, f), Scaled(h, f)) == MIN_DIMENSION
                || Scaled(w, f) == width as real || Scaled(h, f) == height as real)
  {
    var f, short, long := Scale(w, h, width, height), Min(w, h), Max(w, h);
    Undoes(MIN_DIMENSION, short);
    Undoes(width as real, w);
    Undoes(height as real, h);
    hide Scaled, Ratio;
    ScaledMonotone(short, short, f, Ratio(MIN_DIMENSION, short));
    ScaledMonotone(short, long, f, f);
  }

  lemma {:induction false} Undoes(limit: real, a: real)
    requires limit > 0.0 && a > 0.0
    ensures Scaled(a, Ratio(limit, a)) == limit && Ratio(limit, a) > 0.0
  {
    RatioPositive(limit, a);
  }

  lemma {:induction false} ScaledMonotone(a: real, b: real, f: real, g: real)
    requires 0.0 < a <= b && 0.0 < f <= g
    ensures Scaled(a, f) <= Scaled(b, g)
  {
    TimesLe(a, b, f);
    TimesLe(f, g, b);
  }

  lemma {:induction false} PlaceCentred(a: Axis, size: real)
    requires size <= a.limit as real
    ensures Centred(a, Place((a.lo + a.hi) / 2.0, size, a.limit as real), size)
  {
  }

  lemma {:induction false} RoundIsSnug(e: Box)
    ensures Snug(RoundOut(e), e)
  {
  }

  /** The sides of the rounded box, in pixels. */
  lemma {:induction false} RoundedPixels(b: Box, width: nat, height: nat)
    requires IsValid(b) && Contains(Image(width, height), b) && Min(Width(b), Height(b)) < MIN_DIMENSION
    ensures var short, long := ShortAxis(b, width, height), LongAxis(b, width, height);
            var f, r := Factor(short, long), RoundOut(Enlarge(b, width, height));
            var s, l := Scaled(Length(short), f), Scaled(Length(long), f);
            && InImage(short, long)
            && (IsValid(r) && LargeEnough(r) <==>
                  GoodPixels(Pixels(Start(short, s), s), Pixels(Start(long, l), l)))
  {
    hide Ratio, Scaled, Place, Ceil;
  }

  /**
   The exact condition for a repair, on the clamped input: it must be valid, and its sides long
   enough, or its short side must reach 28 pixels without the long one passing a hundred times that.
   */
  lemma {:induction false} RepairIff(bbox: Box, width: nat, height: nat)
    ensures var b := ClampTo(bbox, width, height);
            Repair(bbox, width, height).Some? <==>
              IsValid(b) && Repairable(ShortAxis(b, width, height), LongAxis(b, width, height))
  {
    var b := ClampTo(bbox, width, height);
    if IsValid(b) {
      if Min(Width(b), Height(b)) < MIN_DIMENSION {
        RoundedPixels(b, width, height);
        PixelsDecide(ShortAxis(b, width, height), LongAxis(b, width, height));
        hide Repairable, GoodPixels, Enlarge, RoundOut, LargeEnough, Factor, Start, Pixels;
      } else {
        hide Enlarge, RoundOut;
      }
    }
  }

  /** The factor 100 that validation allows is not always enough for a repair: rounding can exceed it. */
  lemma {:induction false} HundredToOne()
    ensures var bbox := Box(1000.25, 100.0, 2400.25, 114.0);
            && IsValid(bbox) && Fits(bbox, 4000, 4000) && Repair(bbox, 4000, 4000) == None
  {
    var bbox := Box(1000.25, 100.0, 2400.25, 114.0);
    Quotient(28.0, 14.0, 2.0);
    NoScale(14.0, 2.0, 28.0);
    NoScale(1400.0, 2.0, 4000.0);
    NoScale(14.0, 2.0, 4000.0);
    assert Scale(1400.0, 14.0, 4000, 4000) == 2.0;
    assert Width(bbox) == 1400.0 && Height(bbox) == 14.0;
    assert Place(1700.25, 2800.0, 4000.0) == 300.25 && Place(107.0, 28.0, 4000.0) == 93.0;
    assert Enlarge(bbox, 4000, 4000) == Box(300.25, 93.0, 3100.25, 121.0);
    assert RoundOut(Box(300.25, 93.0, 3100.25, 121.0)) == Box(300.0, 93.0, 3101.0, 121.0);
  }
}
