/**
 * `Index` of `src/video/INDEX.py`: how much of each detection box of a
 * frame lies on each of the three zones of the lane mask
 * (`calcola_percentuali`), and how the frame's detections are counted
 * into the twenty damage counters (`convert_df_to_row`).
 *
 * The grayscale mask image is a rectangular grid of pixel values; zone 1
 * (the left wheel path) has value 255, zone 2 (the right wheel path) 127
 * and zone 3 (outside the carriageway) 85. A label file is its lines of
 * text; a malformed line makes `float()` raise.
 */
module LaneIndex {
  import opened Base
  import opened Numeric
  import opened Text
  import opened Damage

  /** The pixel values of the three mask zones, in order. */
  const ZoneColours: seq<int> := [255, 127, 85]

  /** A row of the per-frame table: class and the percentage of the box on each zone. */
  datatype Detection = Detection(cls: int, m1: real, m2: real, m3: real)

  /** A box in pixels, corners `(x1, y1)` and `(x2, y2)`, right and bottom edges excluded. */
  datatype Box = Box(x1: int, y1: int, x2: int, y2: int)

  // ---------------------------------------------------------------- calcola_percentuali

  /**
   * The pixel box of a label as `calcola_percentuali` computes it: the
   * label's centre and size taken as pixels, each corner truncated toward
   * zero, then clipped to the image.
   */
  function LabelBox(xc: real, yc: real, bw: real, bh: real, w: nat, h: nat): (b: Box)
    ensures 0 <= b.x1 && 0 <= b.y1 && b.x2 <= w && b.y2 <= h
  {
    Box(Max(0, Trunc(xc - bw / 2.0)), Max(0, Trunc(yc - bh / 2.0)),
        Min(w, Trunc(xc + bw / 2.0)), Min(h, Trunc(yc + bh / 2.0)))
  }

  function Width(b: Box): int { b.x2 - b.x1 }

  function Height(b: Box): int { b.y2 - b.y1 }

  /** `area_box`: may be positive for a box whose corners are both reversed. */
  function Area(b: Box): int
  {
    Width(b) * Height(b)
  }

  predicate Rectangular(mask: seq<seq<int>>, w: nat)
  {
    forall i :: 0 <= i < |mask| ==> |mask[i]| == w
  }

  /** `mask_gray[y1:y2, x1:x2]`, with Python's slicing of rows and of columns. */
  function Crop(mask: seq<seq<int>>, b: Box): (crop: seq<seq<int>>)
  {
    var rows := PySlice(mask, b.y1, b.y2);
    seq(|rows|, i requires 0 <= i < |rows| => PySlice(rows[i], b.x1, b.x2))
  }

  /** Number of pixels of one row equal to `colour`. */
  function RowMatches(row: seq<int>, colour: int): (n: nat)
    ensures n <= |row|
  {
    if row == [] then 0
    else RowMatches(row[..|row| - 1], colour) + (if row[|row| - 1] == colour then 1 else 0)
  }

  /** `np.sum(crop == colour)` */
  function Matches(crop: seq<seq<int>>, colour: int): nat
  {
    if crop == [] then 0 else Matches(crop[..|crop| - 1], colour) + RowMatches(crop[|crop| - 1], colour)
  }

  /** The overlap percentage of box `b` with the zone of `colour`; 0 when the box area is not positive. */
  function Percentage(mask: seq<seq<int>>, b: Box, colour: int): (p: real)
    ensures Area(b) <= 0 ==> p == 0.0
    ensures p >= 0.0
  {
    var area := Area(b);
    if area > 0 then Ratio(Matches(Crop(mask, b), colour), area) else 0.0
  }

  /** `overlap / area_box * 100` */
  function Ratio(overlap: nat, area: nat): (p: real)
    requires area > 0
    ensures p >= 0.0
    ensures overlap <= area ==> p <= 100.0
    ensures overlap == area ==> p == 100.0
  {
    ShareBound(overlap as real, area as real);
    overlap as real / area as real * 100.0
  }

  /** A box that lies inside the image, corners in order. */
  predicate Inside(b: Box, w: nat, h: nat)
  {
    0 <= b.x1 <= b.x2 <= w && 0 <= b.y1 <= b.y2 <= h
  }

  /** The crop of a box inside the image has one row per pixel row of the box, each as wide as the box. */
  lemma CropShape(mask: seq<seq<int>>, w: nat, b: Box)
    requires Rectangular(mask, w) && Inside(b, w, |mask|)
    ensures |Crop(mask, b)| == b.y2 - b.y1
    ensures forall i :: 0 <= i < |Crop(mask, b)| ==> Crop(mask, b)[i] == mask[b.y1 + i][b.x1..b.x2]
  {
  }

  /** No more pixels match than the crop has. */
  lemma {:induction false} MatchesAtMost(crop: seq<seq<int>>, width: nat, colour: int)
    requires forall i :: 0 <= i < |crop| ==> |crop[i]| == width
    ensures Matches(crop, colour) <= |crop| * width
    decreases |crop|
  {
    if crop != [] {
      MatchesAtMost(crop[..|crop| - 1], width, colour);
      assert (|crop| - 1) * width + width == |crop| * width;
    }
  }

  lemma Commute(x: int, y: int)
    ensures x * y == y * x
  {
  }

  /** Every pixel of a crop of one colour matches it. */
  lemma {:induction false} MatchesAll(crop: seq<seq<int>>, width: nat, colour: int)
    requires forall i :: 0 <= i < |crop| ==> |crop[i]| == width
    requires forall i, j :: 0 <= i < |crop| && 0 <= j < width ==> crop[i][j] == colour
    ensures Matches(crop, colour) == |crop| * width
    decreases |crop|
  {
    if crop != [] {
      MatchesAll(crop[..|crop| - 1], width, colour);
      RowAll(crop[|crop| - 1], colour);
      assert (|crop| - 1) * width + width == |crop| * width;
    }
  }

  lemma {:induction false} RowAll(row: seq<int>, colour: int)
    requires forall j :: 0 <= j < |row| ==> row[j] == colour
    ensures RowMatches(row, colour) == |row|
    decreases |row|
  {
    if row != [] {
      RowAll(row[..|row| - 1], colour);
    }
  }

  /** For a box inside the image every percentage lies between 0 and 100. */
  lemma PercentageBound(mask: seq<seq<int>>, w: nat, b: Box, colour: int)
    requires Rectangular(mask, w) && Inside(b, w, |mask|)
    ensures 0.0 <= Percentage(mask, b, colour) <= 100.0
  {
    var crop := Crop(mask, b);
    CropShape(mask, w, b);
    MatchesAtMost(crop, Width(b), colour);
    assert |crop| == Height(b);
    Commute(Height(b), Width(b));
  }

  /** A box inside the image that lies wholly on one zone measures 100% on it. */
  lemma PercentageFull(mask: seq<seq<int>>, w: nat, b: Box, colour: int)
    requires Rectangular(mask, w) && Inside(b, w, |mask|) && Area(b) > 0
    requires forall y, x :: b.y1 <= y < b.y2 && b.x1 <= x < b.x2 ==> mask[y][x] == colour
    ensures Percentage(mask, b, colour) == 100.0
  {
    var crop := Crop(mask, b);
    CropShape(mask, w, b);
    forall i, j | 0 <= i < |crop| && 0 <= j < Width(b)
      ensures crop[i][j] == colour
    {
      assert crop[i][j] == mask[b.y1 + i][b.x1 + j];
    }
    MatchesAll(crop, Width(b), colour);
    assert |crop| == Height(b);
    Commute(Height(b), Width(b));
  }

  /** `map(float, words)`: every word as a float, or `None` when one is not a number. */
  function Floats(ws: seq<string>): (r: Option<seq<real>>)
    ensures r.Some? ==> |r.value| == |ws|
  {
    if ws == [] then Some([])
    else
      match PyFloat(ws[0])
      case None => None
      case Some(v) =>
        match Floats(ws[1..])
        case None => None
        case Some(vs) => Some([v] + vs)
  }

  /** The label line's five numbers, or `ValueError` when there are not five or one is not a number. */
  function LabelValues(line: string): (r: Result<seq<real>>)
    ensures r.Ok? ==> |r.value| == 5
  {
    var words := Words(line);
    if |words| != 5 then Err("ValueError")
    else
      match Floats(words)
      case None => Err("ValueError")
      case Some(vs) => Ok(vs)
  }

  /** The table row of one label line, or `ValueError`. */
  function DetectionOf(mask: seq<seq<int>>, w: nat, line: string): (r: Result<Detection>)
    ensures r.Ok? <==> LabelValues(line).Ok?
  {
    match LabelValues(line)
    case Err(e) => Err(e)
    case Ok(v) => Ok(Measure(mask, w, v))
  }

  /** The row of a label `class xc yc bw bh`: truncated class and the box's percentage on each zone. */
  function Measure(mask: seq<seq<int>>, w: nat, v: seq<real>): (d: Detection)
    requires |v| == 5
    ensures d.cls == Trunc(v[0])
    ensures d.m1 >= 0.0 && d.m2 >= 0.0 && d.m3 >= 0.0
  {
    var b := LabelBox(v[1], v[2], v[3], v[4], w, |mask|);
    Detection(Trunc(v[0]), Percentage(mask, b, ZoneColours[0]),
              Percentage(mask, b, ZoneColours[1]), Percentage(mask, b, ZoneColours[2]))
  }

  /** The non-blank lines of the label file, stripped. */
  function LabelLines(lines: seq<string>): (r: seq<string>)
    ensures |r| <= |lines|
    ensures forall i :: 0 <= i < |r| ==> r[i] != []
  {
    if lines == [] then []
    else
      var front := LabelLines(lines[..|lines| - 1]);
      var l := Strip(lines[|lines| - 1]);
      if l == [] then front else front + [l]
  }

  /** The outcome of each label line, in order. */
  function Parsed(mask: seq<seq<int>>, w: nat, lines: seq<string>): (rs: seq<Result<Detection>>)
    ensures |rs| == |lines|
    ensures forall i :: 0 <= i < |lines| ==> rs[i] == DetectionOf(mask, w, lines[i])
  {
    seq(|lines|, i requires 0 <= i < |lines| => DetectionOf(mask, w, lines[i]))
  }

  /**
   * The rows of the per-frame table, or the error of the first line that
   * raises.
   */
  function Detections(mask: seq<seq<int>>, w: nat, lines: seq<string>): (r: Result<seq<Detection>>)
    ensures r.Ok? ==> |r.value| == |lines|
  {
    AllOk(Parsed(mask, w, lines))
  }

  /** There is a row for every line exactly when every line parses, and row `i` is line `i`'s detection. */
  lemma DetectionsRows(mask: seq<seq<int>>, w: nat, lines: seq<string>)
    ensures Detections(mask, w, lines).Ok? <==> forall i :: 0 <= i < |lines| ==> DetectionOf(mask, w, lines[i]).Ok?
    ensures Detections(mask, w, lines).Ok? ==>
              forall i :: 0 <= i < |lines| ==> Detections(mask, w, lines).value[i] == DetectionOf(mask, w, lines[i]).value
  {
    AllOkValues(Parsed(mask, w, lines));
  }

  /** `calcola_percentuali`, given the mask image of width `w` and the label file's lines. */
  method CalcolaPercentuali(mask: seq<seq<int>>, w: nat, lines: seq<string>) returns (r: Result<seq<Detection>>)
    ensures r == Detections(mask, w, LabelLines(lines))
  {
    var labels := LabelLines(lines);
    ghost var rs := Parsed(mask, w, labels);
    var data: seq<Detection> := [];
    var i := 0;
    while i < |labels|
      invariant i <= |labels|
      invariant AllOk(rs[..i]) == Ok(data)
    {
      var d := DetectionOf(mask, w, labels[i]);
      if d.Err? {
        AllOkFirstError(rs, i + 1);
        return Err(d.error);
      }
      AllOkStep(rs, i, data);
      data := data + [d.value];
      i := i + 1;
    }
    assert rs[..i] == rs;
    r := Ok(data);
  }

  // ---------------------------------------------------------------- the label scale

  /**
   * Labels in normalised coordinates (every value in [0, 1], as the label
   * files are written) give a box within the top-left pixel: at most one
   * pixel, wherever the detection lies.
   */
  lemma NormalisedLabelCorner(xc: real, yc: real, bw: real, bh: real, w: nat, h: nat)
    requires 0.0 <= xc <= 1.0 && 0.0 <= yc <= 1.0 && 0.0 <= bw <= 1.0 && 0.0 <= bh <= 1.0
    ensures var b := LabelBox(xc, yc, bw, bh, w, h);
            0 <= b.x1 <= 1 && 0 <= b.y1 <= 1 && b.x2 <= 1 && b.y2 <= 1
  {
    UnitCorner(xc, bw);
    UnitCorner(yc, bh);
  }

  /** Truncating a normalised corner gives 0 or 1. */
  lemma UnitCorner(c: real, size: real)
    requires 0.0 <= c <= 1.0 && 0.0 <= size <= 1.0
    ensures 0 <= Max(0, Trunc(c - size / 2.0)) <= 1
    ensures Trunc(c + size / 2.0) <= 1
  {
  }

  /**
   * A normalised label lying strictly inside the frame gives an empty box,
   * so the detection measures 0% on every zone whatever the mask, and is
   * counted outside the wheel paths.
   */
  lemma NormalisedLabelMissed(mask: seq<seq<int>>, w: nat, v: seq<real>)
    requires |v| == 5 && 0.0 <= v[3] && 0.0 <= v[4]
    requires 0.0 <= v[1] - v[3] / 2.0 && v[1] + v[3] / 2.0 < 1.0
    requires 0.0 <= v[2] - v[4] / 2.0 && v[2] + v[4] / 2.0 < 1.0
    ensures Measure(mask, w, v) == Detection(Trunc(v[0]), 0.0, 0.0, 0.0)
  {
    assert Trunc(v[1] - v[3] / 2.0) == 0 && Trunc(v[1] + v[3] / 2.0) == 0;
    assert Trunc(v[2] - v[4] / 2.0) == 0 && Trunc(v[2] + v[4] / 2.0) == 0;
    assert Area(LabelBox(v[1], v[2], v[3], v[4], w, |mask|)) == 0;
  }

  /** The label line `3 0.5 0.5 0.2 0.2`, a pothole in the middle of the frame, measures 0% on every zone. */
  lemma CentredLabelMissed(mask: seq<seq<int>>, w: nat, line: string)
    requires Words(line) == ["3", "0.5", "0.5", "0.2", "0.2"]
    ensures DetectionOf(mask, w, line) == Ok(Detection(3, 0.0, 0.0, 0.0))
  {
    var v := [3.0, 0.5, 0.5, 0.2, 0.2];
    CentredLabelValues(line);
    NormalisedLabelMissed(mask, w, v);
  }

  /** The line `a 0.b 0.b 0.c 0.c`, single spaces between the words, is made of those five words. */
  lemma CentredLine(a: char, b: char, c: char)
    requires IsDigit(a) && IsDigit(b) && IsDigit(c)
    ensures var ws := [[a], ['0', '.', b], ['0', '.', b], ['0', '.', c], ['0', '.', c]];
            Words(Join(ws, " ")) == ws
  {
    var ws := [[a], ['0', '.', b], ['0', '.', b], ['0', '.', c], ['0', '.', c]];
    forall i | 0 <= i < |ws|
      ensures ws[i] != [] && NoSpace(ws[i])
    {
    }
    WordsJoin(ws);
  }

  lemma CentredLabelValues(line: string)
    requires Words(line) == ["3", "0.5", "0.5", "0.2", "0.2"]
    ensures LabelValues(line) == Ok([3.0, 0.5, 0.5, 0.2, 0.2])
  {
    CentredFloats('3', '5', '2');
  }

  /** The words `a 0.b 0.b 0.c 0.c` are five numbers. */
  lemma CentredFloats(a: char, b: char, c: char)
    requires IsDigit(a) && IsDigit(b) && IsDigit(c)
    ensures var tb := DigitValue(b) as real / 10.0;
            var tc := DigitValue(c) as real / 10.0;
            Floats([[a], ['0', '.', b], ['0', '.', b], ['0', '.', c], ['0', '.', c]])
              == Some([DigitValue(a) as real, tb, tb, tc, tc])
  {
    var wb := ['0', '.', b];
    var wc := ['0', '.', c];
    var tb := DigitValue(b) as real / 10.0;
    var tc := DigitValue(c) as real / 10.0;
    PyFloatDigit(a);
    TenthsFloats(b, c);
    FloatsStep([a], [wb, wb, wc, wc], DigitValue(a) as real, [tb, tb, tc, tc]);
    assert [[a]] + [wb, wb, wc, wc] == [[a], wb, wb, wc, wc];
    assert [DigitValue(a) as real] + [tb, tb, tc, tc] == [DigitValue(a) as real, tb, tb, tc, tc];
  }

  /** The words `0.b 0.b 0.c 0.c` are four numbers. */
  lemma TenthsFloats(b: char, c: char)
    requires IsDigit(b) && IsDigit(c)
    ensures var tb := DigitValue(b) as real / 10.0;
            var tc := DigitValue(c) as real / 10.0;
            Floats([['0', '.', b], ['0', '.', b], ['0', '.', c], ['0', '.', c]]) == Some([tb, tb, tc, tc])
  {
    var wb := ['0', '.', b];
    var wc := ['0', '.', c];
    var tb := DigitValue(b) as real / 10.0;
    var tc := DigitValue(c) as real / 10.0;
    PyFloatTenths(b);
    PyFloatTenths(c);
    assert Floats([]) == Some([]);
    FloatsStep(wc, [], tc, []);
    assert [wc] + [] == [wc] && [tc] + [] == [tc];
    FloatsStep(wc, [wc], tc, [tc]);
    assert [wc] + [wc] == [wc, wc] && [tc] + [tc] == [tc, tc];
    FloatsStep(wb, [wc, wc], tb, [tc, tc]);
    assert [wb] + [wc, wc] == [wb, wc, wc] && [tb] + [tc, tc] == [tb, tc, tc];
    FloatsStep(wb, [wb, wc, wc], tb, [tb, tc, tc]);
    assert [wb] + [wb, wc, wc] == [wb, wb, wc, wc] && [tb] + [tb, tc, tc] == [tb, tb, tc, tc];
  }

  /** Words that are all numbers read as those numbers. */
  lemma {:induction false} FloatsAll(ws: seq<string>, vs: seq<real>)
    requires |ws| == |vs|
    requires forall i :: 0 <= i < |ws| ==> PyFloat(ws[i]) == Some(vs[i])
    ensures Floats(ws) == Some(vs)
    decreases |ws|
  {
    if ws != [] {
      FloatsAll(ws[1..], vs[1..]);
      assert [vs[0]] + vs[1..] == vs;
    }
  }

  lemma FloatsStep(w: string, ws: seq<string>, v: real, vs: seq<real>)
    requires PyFloat(w) == Some(v) && Floats(ws) == Some(vs)
    ensures Floats([w] + ws) == Some([v] + vs)
  {
    assert ([w] + ws)[1..] == ws;
  }

  /** `float()` of a single digit. */
  lemma PyFloatDigit(d: char)
    requires IsDigit(d)
    ensures PyFloat([d]) == Some(DigitValue(d) as real)
  {
    assert Strip([d]) == [d];
    assert IndexOf([d], '.') == None;
    assert DigitsValue([d]) == DigitValue(d) by { assert [d][..0] == []; }
  }

  /** `float()` of `0.d`. */
  lemma PyFloatTenths(d: char)
    requires IsDigit(d)
    ensures PyFloat(['0', '.', d]) == Some(DigitValue(d) as real / 10.0)
  {
    PyFloatDecimal("0", [d]);
    assert "0" + "." + [d] == ['0', '.', d];
    assert DigitsValue("0") == 0 by { assert "0"[..0] == []; }
    assert Fraction([d]) == DigitValue(d) as real / 10.0 by { assert [d][1..] == []; }
  }

  /** The box the label describes, scaled from normalised to pixel coordinates before truncation. */
  function ScaledLabelBox(xc: real, yc: real, bw: real, bh: real, w: nat, h: nat): (b: Box)
    ensures 0 <= b.x1 && 0 <= b.y1 && b.x2 <= w && b.y2 <= h
  {
    LabelBox(Scale(xc, w), Scale(yc, h), Scale(bw, w), Scale(bh, h), w, h)
  }

  /** A normalised label scaled to pixels gives a box inside the image, corners in order. */
  lemma ScaledLabelInside(xc: real, yc: real, bw: real, bh: real, w: nat, h: nat)
    requires 0.0 <= xc <= 1.0 && 0.0 <= yc <= 1.0 && 0.0 <= bw <= 1.0 && 0.0 <= bh <= 1.0
    ensures Inside(ScaledLabelBox(xc, yc, bw, bh, w, h), w, h)
  {
    AxisInside(Scale(xc, w), Scale(bw, w), w);
    AxisInside(Scale(yc, h), Scale(bh, h), h);
  }

  /** Clipping a box centred inside `0..n` keeps its edges in order. */
  lemma AxisInside(cn: real, sn: real, n: nat)
    requires 0.0 <= cn <= n as real && 0.0 <= sn
    ensures Max(0, Trunc(cn - sn / 2.0)) <= Min(n, Trunc(cn + sn / 2.0))
  {
    assert Trunc(cn - sn / 2.0) <= Trunc(cn + sn / 2.0);
  }

  /**
   * With the label scaled, a detection lying wholly on one zone measures
   * 100% on it, and every percentage stays within 0..100.
   */
  lemma ScaledLabelMeasures(mask: seq<seq<int>>, w: nat, xc: real, yc: real, bw: real, bh: real, colour: int)
    requires Rectangular(mask, w)
    requires 0.0 <= xc <= 1.0 && 0.0 <= yc <= 1.0 && 0.0 <= bw <= 1.0 && 0.0 <= bh <= 1.0
    ensures 0.0 <= Percentage(mask, ScaledLabelBox(xc, yc, bw, bh, w, |mask|), colour) <= 100.0
    ensures var b := ScaledLabelBox(xc, yc, bw, bh, w, |mask|);
            Area(b) > 0 && (forall y, x :: b.y1 <= y < b.y2 && b.x1 <= x < b.x2 ==> mask[y][x] == colour) ==>
              Percentage(mask, b, colour) == 100.0
  {
    var b := ScaledLabelBox(xc, yc, bw, bh, w, |mask|);
    ScaledLabelInside(xc, yc, bw, bh, w, |mask|);
    PercentageBound(mask, w, b, colour);
    if Area(b) > 0 && (forall y, x :: b.y1 <= y < b.y2 && b.x1 <= x < b.x2 ==> mask[y][x] == colour) {
      PercentageFull(mask, w, b, colour);
    }
  }

  // ---------------------------------------------------------------- convert_df_to_row

  /** `classi[cl]`: Python list indexing, negative indices counting from the end; `None` raises `IndexError`. */
  function ClassName(cl: int): (k: Option<Kind>)
    ensures k.Some? <==> -5 <= cl < 5
    ensures 0 <= cl < 5 ==> k == KindOf(cl)
  {
    if 0 <= cl < 5 then KindOf(cl)
    else if -5 <= cl < 0 then KindOf(cl + 5)
    else None
  }

  /** Longitudinal and Pothole, which need 40% on a wheel path to count there. */
  predicate Strict(cl: int) { cl == 0 || cl == 3 }

  /** Transverse, Alligator and Manhole, which count on a wheel path with any overlap. */
  predicate Loose(cl: int) { cl == 1 || cl == 2 || cl == 4 }

  /**
   * The column a kept detection of class `cl` counts in, from its overlaps
   * `m1` and `m2` with the two wheel paths; `None` when it counts nowhere.
   */
  function ZoneOf(cl: int, m1: real, m2: real): (z: Option<Zone>)
    ensures z == Some(Outside) <==> m1 < 1.0 && m2 < 1.0
    ensures z == Some(Both) <==>
              !(m1 < 1.0 && m2 < 1.0) && m1 > 0.0 && m2 > 0.0 && (Loose(cl) || (Strict(cl) && m1 >= 40.0 && m2 >= 40.0))
    ensures z == Some(Sx) <==>
              !(m1 < 1.0 && m2 < 1.0) && m1 > 0.0 && m2 == 0.0 && (Loose(cl) || (Strict(cl) && m1 >= 40.0))
    ensures z == Some(Dx) <==>
              !(m1 < 1.0 && m2 < 1.0) && m2 > 0.0 && m1 == 0.0 && (Loose(cl) || (Strict(cl) && m2 >= 40.0))
  {
    if m1 < 1.0 && m2 < 1.0 then Some(Outside)
    else if m1 > 0.0 && m2 > 0.0 then
      if Strict(cl) then (if m1 >= 40.0 && m2 >= 40.0 then Some(Both) else None)
      else if Loose(cl) then Some(Both)
      else None
    else if m1 > 0.0 && m2 == 0.0 then
      if Strict(cl) && m1 >= 40.0 then Some(Sx)
      else if Loose(cl) then Some(Sx)
      else None
    else if m2 > 0.0 && m1 == 0.0 then
      if Strict(cl) && m2 >= 40.0 then Some(Dx)
      else if Loose(cl) then Some(Dx)
      else None
    else None
  }

  /** The detections kept for counting: at most 50% outside the carriageway. */
  function Kept(ds: seq<Detection>): (r: seq<Detection>)
    ensures |r| <= |ds|
    ensures forall d :: d in r ==> d in ds && d.m3 <= 50.0
  {
    if ds == [] then []
    else
      var front := Kept(ds[..|ds| - 1]);
      var d := ds[|ds| - 1];
      if d.m3 <= 50.0 then front + [d] else front
  }

  /** A detection mostly outside the carriageway changes nothing. */
  lemma KeptDiscards(ds: seq<Detection>, d: Detection)
    requires d.m3 > 50.0
    ensures Kept(ds + [d]) == Kept(ds)
  {
    assert (ds + [d])[..|ds|] == ds;
  }

  /** The counters after the given detections, from all zeros; `IndexError` for a class outside the list. */
  function CountAll(ds: seq<Detection>): (r: Result<Counts>)
    ensures r.Err? ==> r.error == "IndexError"
  {
    if ds == [] then Ok(Zero)
    else
      match CountAll(ds[..|ds| - 1])
      case Err(e) => Err(e)
      case Ok(c) => CountOne(c, ds[|ds| - 1])
  }

  /** One detection counted into `c`. */
  function CountOne(c: Counts, d: Detection): (r: Result<Counts>)
    ensures r.Ok? <==> ClassName(d.cls).Some?
    ensures r.Err? ==> r.error == "IndexError"
  {
    match ClassName(d.cls)
    case None => Err("IndexError")
    case Some(k) =>
      match ZoneOf(d.cls, d.m1, d.m2)
      case None => Ok(c)
      case Some(z) => Ok(Bump(c, k, z))
  }

  /** Number of detections that count in column `k`/`z`. */
  function Hits(ds: seq<Detection>, k: Kind, z: Zone): nat
  {
    if ds == [] then 0
    else
      var d := ds[|ds| - 1];
      Hits(ds[..|ds| - 1], k, z) + (if ClassName(d.cls) == Some(k) && ZoneOf(d.cls, d.m1, d.m2) == Some(z) then 1 else 0)
  }

  /**
   * Counting succeeds exactly when every class is one of the five; then
   * each counter is the number of detections counted in its column, and
   * all counters together are at most the number of detections.
   */
  lemma {:induction false} CountAllCounts(ds: seq<Detection>)
    ensures CountAll(ds).Ok? <==> forall d :: d in ds ==> ClassName(d.cls).Some?
    ensures CountAll(ds).Ok? ==>
              (forall k, z :: Damage.Count(CountAll(ds).value, k, z) == Hits(ds, k, z))
              && 0 <= Total(CountAll(ds).value) <= |ds|
    decreases |ds|
  {
    if ds != [] {
      var front := ds[..|ds| - 1];
      var d := ds[|ds| - 1];
      CountAllCounts(front);
      assert forall e :: e in ds <==> e in front || e == d by {
        assert ds == front + [d];
      }
      if CountAll(ds).Ok? {
        var c := CountAll(front).value;
        match ZoneOf(d.cls, d.m1, d.m2)
        case None =>
        case Some(z) =>
          BumpTotal(c, ClassName(d.cls).value, z);
      }
    }
  }

  /** The frame name: the label file's base name without its extension. */
  function FrameName(labels: string): string
  {
    SplitExtRoot(BaseName(RStripSlash(labels)))
  }

  /** The row of the interval table for one frame. */
  datatype FrameRow = FrameRow(frame: string, counts: Counts)

  /** The frame's row from its table of detections, or `IndexError`. */
  function RowOf(df: seq<Detection>, labels: string): (r: Result<FrameRow>)
    ensures r.Ok? ==> r.value.frame == FrameName(labels)
  {
    match CountAll(Kept(df))
    case Err(e) => Err(e)
    case Ok(c) => Ok(FrameRow(FrameName(labels), c))
  }

  /**
   * The row exists exactly when every kept detection has one of the five
   * classes; then each counter is the number of kept detections counted in
   * its column, and a detection mostly outside the carriageway counts nowhere.
   */
  lemma RowOfCounts(df: seq<Detection>, labels: string)
    ensures RowOf(df, labels).Ok? <==> forall d :: d in Kept(df) ==> ClassName(d.cls).Some?
    ensures RowOf(df, labels).Ok? ==>
              forall k, z :: Damage.Count(RowOf(df, labels).value.counts, k, z) == Hits(Kept(df), k, z)
  {
    CountAllCounts(Kept(df));
  }

  /** `convert_df_to_row`: drop the rows mostly outside the carriageway, then count the rest. */
  method ConvertDfToRow(df: seq<Detection>, labels: string) returns (r: Result<FrameRow>)
    ensures r == RowOf(df, labels)
  {
    var kept := Kept(df);
    var result := Zero;
    var i := 0;
    while i < |kept|
      invariant i <= |kept|
      invariant CountAll(kept[..i]) == Ok(result)
    {
      assert kept[..i + 1][..i] == kept[..i];
      var d := kept[i];
      var name := ClassName(d.cls);
      if name.None? {
        CountAllError(kept, i + 1);
        return Err("IndexError");
      }
      var zone := ZoneOf(d.cls, d.m1, d.m2);
      if zone.Some? {
        result := Bump(result, name.value, zone.value);
      }
      i := i + 1;
    }
    assert kept[..i] == kept;
    r := Ok(FrameRow(FrameName(labels), result));
  }

  /** A detection of unknown class makes the whole count fail. */
  lemma {:induction false} CountAllError(ds: seq<Detection>, n: nat)
    requires 0 < n <= |ds|
    requires CountAll(ds[..n - 1]).Ok?
    requires ClassName(ds[n - 1].cls).None?
    ensures CountAll(ds).Err?
    decreases |ds|
  {
    if n < |ds| {
      assert ds[..|ds| - 1][..n - 1] == ds[..n - 1];
      assert ds[..|ds| - 1][n - 1] == ds[n - 1];
      CountAllError(ds[..|ds| - 1], n);
    } else {
      assert ds[..|ds| - 1] == ds[..n - 1];
    }
  }

  // ---------------------------------------------------------------- process_labels_folder

  /** A label file of a frame folder: its path and its lines. */
  datatype LabelFile = LabelFile(path: string, lines: seq<string>)

  /** The row one label file contributes to the interval table, or the exception it raises. */
  function FileRow(mask: seq<seq<int>>, w: nat, f: LabelFile): (r: Result<FrameRow>)
    ensures r.Ok? ==> r.value.frame == FrameName(f.path)
  {
    match Detections(mask, w, LabelLines(f.lines))
    case Err(e) => Err(e)
    case Ok(df) => RowOf(df, f.path)
  }

  /**
   * The interval table of a frame folder: one row per label file, in the
   * order given, or the error of the first file that raises.
   */
  function FolderTable(mask: seq<seq<int>>, w: nat, files: seq<LabelFile>): (r: Result<seq<FrameRow>>)
    ensures r.Ok? ==> |r.value| == |files|
  {
    AllOk(FileRows(mask, w, files))
  }

  /**
   * The table exists exactly when no label file raises; then row `i` is
   * file `i`'s row and is named after that file's frame.
   */
  lemma FolderTableRows(mask: seq<seq<int>>, w: nat, files: seq<LabelFile>)
    ensures FolderTable(mask, w, files).Ok? <==> forall i :: 0 <= i < |files| ==> FileRow(mask, w, files[i]).Ok?
    ensures FolderTable(mask, w, files).Ok? ==> forall i :: 0 <= i < |files| ==>
              FolderTable(mask, w, files).value[i] == FileRow(mask, w, files[i]).value
              && FolderTable(mask, w, files).value[i].frame == FrameName(files[i].path)
  {
    AllOkValues(FileRows(mask, w, files));
  }

  /** The outcome of each label file, in order. */
  function FileRows(mask: seq<seq<int>>, w: nat, files: seq<LabelFile>): (rs: seq<Result<FrameRow>>)
    ensures |rs| == |files|
    ensures forall i :: 0 <= i < |files| ==> rs[i] == FileRow(mask, w, files[i])
  {
    seq(|files|, i requires 0 <= i < |files| => FileRow(mask, w, files[i]))
  }

  /** One iteration of `process_labels_folder`: the label file's table of detections, then its row. */
  method LabelFileRow(mask: seq<seq<int>>, w: nat, f: LabelFile) returns (r: Result<FrameRow>)
    ensures r == FileRow(mask, w, f)
  {
    var df := CalcolaPercentuali(mask, w, f.lines);
    if df.Err? {
      return Err(df.error);
    }
    r := ConvertDfToRow(df.value, f.path);
  }

  /** `process_labels_folder` for a folder that has a `labels` directory, its files in sorted order. */
  method ProcessLabelsFolder(mask: seq<seq<int>>, w: nat, files: seq<LabelFile>) returns (r: Result<seq<FrameRow>>)
    ensures r == FolderTable(mask, w, files)
  {
    ghost var rs := FileRows(mask, w, files);
    var table: seq<FrameRow> := [];
    var i := 0;
    while i < |files|
      invariant i <= |files|
      invariant AllOk(rs[..i]) == Ok(table)
    {
      var row := LabelFileRow(mask, w, files[i]);
      if row.Err? {
        AllOkFirstError(rs, i + 1);
        return Err(row.error);
      }
      AllOkStep(rs, i, table);
      table := table + [row.value];
      i := i + 1;
    }
    assert rs[..i] == rs;
    r := Ok(table);
  }
}
