/**
 * The YOLO label files written by `save_results_wbf`, in its two copies:
 * `src/video/MODELS.py`, which accepts boxes as corners or as centre and
 * size, in pixels or normalised, and places them on the image's pixel
 * grid first; and `Video/MODELS.py`, which takes normalised corners as they
 * are. A label line is `class xc yc w h`, the four numbers normalised and
 * printed with six decimals; `src/video/INDEX.py` reads these files back.
 */
module Labels {
  import opened Base
  import opened Numeric
  import opened Text
  import opened Format
  import LaneIndex

  /** The four numbers of a detector box, as the model hands them over. */
  datatype Quad = Quad(a: real, b: real, c: real, d: real)

  /** Integer pixel corners, `(x1, y1)` top left and `(x2, y2)` bottom right. */
  datatype Pixels = Pixels(x1: int, y1: int, x2: int, y2: int)

  /** A label line: the class and the normalised centre and size. */
  datatype LabelLine = LabelLine(cls: int, xc: real, yc: real, bw: real, bh: real)


  // ---------------------------------------------------------------- src/video/MODELS.py: placing a box

  /** Every value within `[0, 1.1]`: the box is taken to be normalised. */
  predicate Normalised(q: Quad)
  {
    0.0 <= q.a <= 1.1 && 0.0 <= q.b <= 1.1 && 0.0 <= q.c <= 1.1 && 0.0 <= q.d <= 1.1
  }

  /** The box scaled by the image's width and height. */
  function OnImage(q: Quad, w: nat, h: nat): Quad
  {
    Quad(Scale(q.a, w), Scale(q.b, h), Scale(q.c, w), Scale(q.d, h))
  }

  /**
   * The box is read as centre and size when its second pair lies before its
   * first, or when both second values are within half the image while the
   * first pair is inside it; otherwise as two corners.
   */
  predicate CentreFormat(q: Quad, w: nat, h: nat)
  {
    q.c < q.a || q.d < q.b || (q.c <= w as real * 0.5 && q.d <= h as real * 0.5 && q.a <= w as real && q.b <= h as real)
  }

  /** The corners, rounded half to even, before ordering and clamping. */
  function Rounded(q: Quad, w: nat, h: nat): Pixels
  {
    if CentreFormat(q, w, h) then
      Pixels(RoundHalfEven(q.a - q.c / 2.0), RoundHalfEven(q.b - q.d / 2.0),
             RoundHalfEven(q.a + q.c / 2.0), RoundHalfEven(q.b + q.d / 2.0))
    else
      Pixels(RoundHalfEven(q.a), RoundHalfEven(q.b), RoundHalfEven(q.c), RoundHalfEven(q.d))
  }

  /** `max(0, min(n - 1, v))` */
  function Clamp(v: int, n: nat): int
  {
    Max(0, Min(n - 1, v))
  }

  /**
   * Corners put in order, clamped to the image, and where a pair coincides
   * the second pushed one pixel on if the image allows it.
   */
  function Place(p: Pixels, w: nat, h: nat): (r: Pixels)
    ensures w >= 1 ==> 0 <= r.x1 <= r.x2 <= w - 1
    ensures h >= 1 ==> 0 <= r.y1 <= r.y2 <= h - 1
    ensures w >= 1 && r.x1 == r.x2 ==> r.x1 == w - 1
    ensures h >= 1 && r.y1 == r.y2 ==> r.y1 == h - 1
  {
    var x1 := Clamp(Min(p.x1, p.x2), w);
    var y1 := Clamp(Min(p.y1, p.y2), h);
    var x2 := Clamp(Max(p.x1, p.x2), w);
    var y2 := Clamp(Max(p.y1, p.y2), h);
    Pixels(x1, y1, if x2 == x1 then Min(w - 1, x1 + 1) else x2, if y2 == y1 then Min(h - 1, y1 + 1) else y2)
  }

  /** `to_xyxy_pixels`: the box as ordered pixel corners inside the image. */
  function ToPixels(q: Quad, w: nat, h: nat): (r: Pixels)
    ensures w >= 1 ==> 0 <= r.x1 <= r.x2 <= w - 1
    ensures h >= 1 ==> 0 <= r.y1 <= r.y2 <= h - 1
    ensures w >= 1 && r.x1 == r.x2 ==> r.x1 == w - 1
    ensures h >= 1 && r.y1 == r.y2 ==> r.y1 == h - 1
  {
    Place(Rounded(if Normalised(q) then OnImage(q, w, h) else q, w, h), w, h)
  }

  /** Corners already in order, inside the image and apart are left as they are. */
  lemma PlaceKeeps(p: Pixels, w: nat, h: nat)
    requires 0 <= p.x1 < p.x2 <= w - 1 && 0 <= p.y1 < p.y2 <= h - 1
    ensures Place(p, w, h) == p
  {
  }

  /** The corners may come in either order. */
  lemma PlaceSwapped(p: Pixels, w: nat, h: nat)
    ensures Place(Pixels(p.x2, p.y2, p.x1, p.y1), w, h) == Place(p, w, h)
  {
  }

  /** A placed box is placed already. */
  lemma PlaceIdempotent(p: Pixels, w: nat, h: nat)
    requires w >= 1 && h >= 1
    ensures Place(Place(p, w, h), w, h) == Place(p, w, h)
  {
  }

  /**
   * A box given as whole pixel corners, in order, inside the image and not
   * lying wholly in its top-left quarter, comes back unchanged.
   */
  lemma PixelCornersKept(x1: int, y1: int, x2: int, y2: int, w: nat, h: nat)
    requires 0 <= x1 < x2 <= w - 1 && 0 <= y1 < y2 <= h - 1
    requires x2 >= 2
    requires 2 * x2 > w || 2 * y2 > h
    ensures ToPixels(Quad(x1 as real, y1 as real, x2 as real, y2 as real), w, h) == Pixels(x1, y1, x2, y2)
  {
    var q := Quad(x1 as real, y1 as real, x2 as real, y2 as real);
    assert !Normalised(q);
    assert !CentreFormat(q, w, h);
    RoundWhole(x1);
    RoundWhole(y1);
    RoundWhole(x2);
    RoundWhole(y2);
    PlaceKeeps(Pixels(x1, y1, x2, y2), w, h);
  }

  /** A normalised YOLO box (centre 0.5, size 0.2) on a 100 by 100 image: scaled, then read as centre and size. */
  lemma NormalisedCentreBox()
    ensures ToPixels(Quad(0.5, 0.5, 0.2, 0.2), 100, 100) == Pixels(40, 40, 60, 60)
  {
    var q := OnImage(Quad(0.5, 0.5, 0.2, 0.2), 100, 100);
    assert q == Quad(50.0, 50.0, 20.0, 20.0);
    assert CentreFormat(q, 100, 100);
    RoundWhole(40);
    RoundWhole(60);
  }

  /** Normalised corners on a 100 by 100 image: scaled, then read as corners. */
  lemma NormalisedCornerBox()
    ensures ToPixels(Quad(0.25, 0.25, 0.75, 0.75), 100, 100) == Pixels(25, 25, 75, 75)
  {
    var q := OnImage(Quad(0.25, 0.25, 0.75, 0.75), 100, 100);
    assert q == Quad(25.0, 25.0, 75.0, 75.0);
    assert !CentreFormat(q, 100, 100);
    RoundWhole(25);
    RoundWhole(75);
  }

  // ---------------------------------------------------------------- src/video/MODELS.py: label lines

  /** The label of placed corners: centre and size in units of the image's width and height. */
  function YoloLine(cls: int, p: Pixels, w: nat, h: nat): LabelLine
    requires w >= 1 && h >= 1
  {
    LabelLine(cls, ((p.x1 + p.x2) as real / 2.0) / w as real, ((p.y1 + p.y2) as real / 2.0) / h as real,
              (p.x2 - p.x1) as real / w as real, (p.y2 - p.y1) as real / h as real)
  }

  /** The class of box `i`: `int(labels[i])`, or 0 when the labels run out first. */
  function ClassAt(labels: seq<real>, i: nat): int
  {
    if i < |labels| then Trunc(labels[i]) else 0
  }

  /** The label of box `i`. */
  function LineFor(boxes: seq<Quad>, labels: seq<real>, i: nat, w: nat, h: nat): LabelLine
    requires i < |boxes| && w >= 1 && h >= 1
  {
    YoloLine(ClassAt(labels, i), ToPixels(boxes[i], w, h), w, h)
  }

  /** `f"{cls} {xc:.6f} {yc:.6f} {bw:.6f} {bh:.6f}"` */
  function Render(l: LabelLine): string
  {
    Join(Fields(l), " ")
  }

  /** The line's four numbers: centre and size. */
  function Numbers(l: LabelLine): seq<real>
  {
    [l.xc, l.yc, l.bw, l.bh]
  }

  /** The line's five fields: the class as an integer, the numbers with six decimals. */
  function Fields(l: LabelLine): (f: seq<string>)
    ensures |f| == 5 && f[0] == ShowInt(l.cls)
    ensures forall k :: 1 <= k < 5 ==> f[k] == Fixed6(Numbers(l)[k - 1])
  {
    [ShowInt(l.cls)] + seq(4, k requires 0 <= k < 4 => Fixed6(Numbers(l)[k]))
  }

  /** What reading the fields back as numbers gives: the class, and the numbers rounded to six decimals. */
  function ReadBack(l: LabelLine): (v: seq<real>)
    ensures |v| == 5 && v[0] == l.cls as real
    ensures forall k :: 1 <= k < 5 ==> v[k] == Round6(Numbers(l)[k - 1])
  {
    [l.cls as real] + seq(4, k requires 0 <= k < 4 => Round6(Numbers(l)[k]))
  }

  /** Every number of the label of a placed box lies in `[0, 1]`. */
  lemma YoloLineUnit(cls: int, p: Pixels, w: nat, h: nat)
    requires w >= 1 && h >= 1
    requires 0 <= p.x1 <= p.x2 <= w - 1 && 0 <= p.y1 <= p.y2 <= h - 1
    ensures var l := YoloLine(cls, p, w, h);
            0.0 <= l.xc <= 1.0 && 0.0 <= l.yc <= 1.0 && 0.0 <= l.bw <= 1.0 && 0.0 <= l.bh <= 1.0
  {
    ShareBound((p.x1 + p.x2) as real / 2.0, w as real);
    ShareBound((p.y1 + p.y2) as real / 2.0, h as real);
    ShareBound((p.x2 - p.x1) as real, w as real);
    ShareBound((p.y2 - p.y1) as real, h as real);
  }

  /** Scaled back by the image size, the label's centre and size give the pixel corners again. */
  lemma YoloLineCorners(cls: int, p: Pixels, w: nat, h: nat)
    requires w >= 1 && h >= 1
    ensures var l := YoloLine(cls, p, w, h);
            && (l.xc - l.bw / 2.0) * w as real == p.x1 as real
            && (l.xc + l.bw / 2.0) * w as real == p.x2 as real
            && (l.yc - l.bh / 2.0) * h as real == p.y1 as real
            && (l.yc + l.bh / 2.0) * h as real == p.y2 as real
  {
    AxisCorners(p.x1 as real, p.x2 as real, w as real);
    AxisCorners(p.y1 as real, p.y2 as real, h as real);
  }

  lemma AxisCorners(lo: real, hi: real, n: real)
    requires n > 0.0
    ensures ((lo + hi) / 2.0 / n - (hi - lo) / n / 2.0) * n == lo
    ensures ((lo + hi) / 2.0 / n + (hi - lo) / n / 2.0) * n == hi
  {
    var c := (lo + hi) / 2.0 / n;
    var s := (hi - lo) / n;
    assert c * n == (lo + hi) / 2.0;
    assert s * n == hi - lo;
    assert (c - s / 2.0) * n == c * n - (s * n) / 2.0;
    assert (c + s / 2.0) * n == c * n + (s * n) / 2.0;
  }

  /**
   * What `src/video/INDEX.py` reads from a rendered label line: the class
   * and the four numbers rounded to six decimals, for a label with no
   * negative number in it.
   */
  lemma RenderRead(l: LabelLine)
    requires l.xc >= 0.0 && l.yc >= 0.0 && l.bw >= 0.0 && l.bh >= 0.0
    ensures LaneIndex.LabelValues(Render(l)) == Ok(ReadBack(l))
  {
    RenderWords(l);
    forall i | 0 <= i < 5
      ensures PyFloat(Fields(l)[i]) == Some(ReadBack(l)[i])
    {
      FieldRead(l, i);
    }
    LaneIndex.FloatsAll(Fields(l), ReadBack(l));
  }

  lemma FieldRead(l: LabelLine, i: nat)
    requires l.xc >= 0.0 && l.yc >= 0.0 && l.bw >= 0.0 && l.bh >= 0.0
    requires i < 5
    ensures PyFloat(Fields(l)[i]) == Some(ReadBack(l)[i])
  {
    if i == 0 {
      PyFloatShowInt(l.cls);
    } else {
      Fixed6Read(Numbers(l)[i - 1]);
    }
  }

  /** A rendered line splits into its five fields. */
  lemma RenderWords(l: LabelLine)
    ensures Words(Render(l)) == Fields(l)
  {
    ShowIntNoSpace(l.cls);
    forall k | 1 <= k < 5
      ensures NoSpace(Fields(l)[k])
    {
      Fixed6NoSpace(Numbers(l)[k - 1]);
    }
    WordsJoin(Fields(l));
  }

  /** Every label line `src/video/MODELS.py` writes is read back by `src/video/INDEX.py` as its class and its numbers to six decimals. */
  lemma LineForRead(boxes: seq<Quad>, labels: seq<real>, i: nat, w: nat, h: nat)
    requires i < |boxes| && w >= 1 && h >= 1
    ensures var l := LineFor(boxes, labels, i, w, h);
            LaneIndex.LabelValues(Render(l)) == Ok([ClassAt(labels, i) as real, Round6(l.xc), Round6(l.yc), Round6(l.bw), Round6(l.bh)])
  {
    var l := LineFor(boxes, labels, i, w, h);
    YoloLineUnit(ClassAt(labels, i), ToPixels(boxes[i], w, h), w, h);
    RenderRead(l);
    assert ReadBack(l) == [ClassAt(labels, i) as real, Round6(l.xc), Round6(l.yc), Round6(l.bw), Round6(l.bh)];
  }
}
