/**
 * `Video/utils_filters.py`: the per-class score filters applied to a
 * detector's output before weighted box fusion, and the scaling of pixel
 * boxes to the unit square.
 *
 * The detector's output is three parallel lists: boxes, confidence scores
 * and class labels (floats). A filter walks them together, as `zip` does,
 * so it stops at the shortest list.
 */
module Filters {
  import opened Base
  import opened Numeric
  import opened Text

  /** One detection as `zip(boxes, scores, classes)` yields it. */
  datatype Detection<B> = Detection(box: B, score: real, cls: real)

  /** Three parallel lists: boxes, scores and classes. */
  datatype Triples<B> = Triples(boxes: seq<B>, scores: seq<real>, classes: seq<real>)

  /** `zip(boxes, scores, classes)`: one detection per index of the shortest list. */
  function Zip<B>(t: Triples<B>): (ds: seq<Detection<B>>)
    ensures |ds| == Min(|t.boxes|, Min(|t.scores|, |t.classes|))
    ensures forall i :: 0 <= i < |ds| ==> ds[i] == Detection(t.boxes[i], t.scores[i], t.classes[i])
  {
    var n := Min(|t.boxes|, Min(|t.scores|, |t.classes|));
    seq(n, i requires 0 <= i < n => Detection(t.boxes[i], t.scores[i], t.classes[i]))
  }

  /** The three lists of a sequence of detections. */
  function Unzip<B>(ds: seq<Detection<B>>): (t: Triples<B>)
    ensures |t.boxes| == |t.scores| == |t.classes| == |ds|
    ensures forall i :: 0 <= i < |ds| ==> ds[i] == Detection(t.boxes[i], t.scores[i], t.classes[i])
  {
    Triples(seq(|ds|, i requires 0 <= i < |ds| => ds[i].box),
            seq(|ds|, i requires 0 <= i < |ds| => ds[i].score),
            seq(|ds|, i requires 0 <= i < |ds| => ds[i].cls))
  }

  /** Splitting detections into lists and zipping them again gives them back. */
  lemma ZipUnzip<B>(ds: seq<Detection<B>>)
    ensures Zip(Unzip(ds)) == ds
  {
  }

  /**
   * The thresholds a filter compares scores with: a dictionary keyed by
   * the class as text with default 0 (`filter_boxes_by_class_thresholds`),
   * one keyed by the class as an integer with default 0.1
   * (`results_for_filtered`), or `None`, which keeps everything.
   */
  datatype Thresholds = ByName(names: map<string, real>) | ByClass(classes: map<int, real>) | NoThresholds

  /** `dict.get(key, default)` */
  function Get<K>(m: map<K, real>, key: K, default: real): (v: real)
    ensures key in m ==> v == m[key]
    ensures key !in m ==> v == default
  {
    if key in m then m[key] else default
  }

  /** Whether a detection's score reaches its class's threshold. */
  predicate Passes<B>(th: Thresholds, d: Detection<B>)
  {
    match th
    case ByName(names) => d.score >= Get(names, ShowInt(Trunc(d.cls)), 0.0)
    case ByClass(classes) => d.score >= Get(classes, Trunc(d.cls), 0.1)
    case NoThresholds => true
  }

  /** The detections that pass, in their order. */
  function Select<B>(ds: seq<Detection<B>>, th: Thresholds): (r: seq<Detection<B>>)
    ensures |r| <= |ds|
  {
    if ds == [] then []
    else
      var d := ds[|ds| - 1];
      Select(ds[..|ds| - 1], th) + (if Passes(th, d) then [d] else [])
  }

  /** Every selected detection is an input detection that passes. */
  lemma {:induction false} SelectSound<B>(ds: seq<Detection<B>>, th: Thresholds)
    ensures forall d :: d in Select(ds, th) ==> d in ds && Passes(th, d)
    decreases |ds|
  {
    if ds != [] {
      SelectSound(ds[..|ds| - 1], th);
      forall d | d in ds[..|ds| - 1]
        ensures d in ds
      {
        InLast(ds, d);
      }
    }
  }

  /** Every input detection that passes is selected. */
  lemma {:induction false} SelectComplete<B>(ds: seq<Detection<B>>, th: Thresholds)
    ensures forall d :: d in ds && Passes(th, d) ==> d in Select(ds, th)
    decreases |ds|
  {
    if ds != [] {
      SelectComplete(ds[..|ds| - 1], th);
      forall d | d in ds && Passes(th, d)
        ensures d in Select(ds, th)
      {
        InLast(ds, d);
      }
    }
  }

  /** Selection works piecewise, so it keeps the input order. */
  lemma {:induction false} SelectAppend<B>(a: seq<Detection<B>>, b: seq<Detection<B>>, th: Thresholds)
    ensures Select(a + b, th) == Select(a, th) + Select(b, th)
    decreases |b|
  {
    if b == [] {
      assert a + b == a;
    } else {
      var front := b[..|b| - 1];
      assert (a + b)[..|a + b| - 1] == a + front;
      SelectAppend(a, front, th);
    }
  }

  /** Selecting again with the same thresholds changes nothing. */
  lemma {:induction false} SelectIdempotent<B>(ds: seq<Detection<B>>, th: Thresholds)
    ensures Select(Select(ds, th), th) == Select(ds, th)
    decreases |ds|
  {
    if ds != [] {
      var front := ds[..|ds| - 1];
      var d := ds[|ds| - 1];
      SelectIdempotent(front, th);
      var tail := if Passes(th, d) then [d] else [];
      SelectAppend(Select(front, th), tail, th);
      if Passes(th, d) {
        assert Select([d], th) == Select([], th) + [d] by { assert [d][..0] == []; }
      }
    }
  }

  /** Without thresholds every detection is kept. */
  lemma {:induction false} SelectNoThresholds<B>(ds: seq<Detection<B>>)
    ensures Select(ds, NoThresholds) == ds
    decreases |ds|
  {
    if ds != [] {
      SelectNoThresholds(ds[..|ds| - 1]);
    }
  }

  // ---------------------------------------------------------------- filter_boxes_by_class_thresholds

  /** The detection with its class converted by `int(cls)`. */
  function IntClass<B>(d: Detection<B>): Detection<B>
  {
    d.(cls := Trunc(d.cls) as real)
  }

  function IntClasses<B>(ds: seq<Detection<B>>): (r: seq<Detection<B>>)
    ensures |r| == |ds|
    ensures forall i :: 0 <= i < |ds| ==> r[i] == IntClass(ds[i])
  {
    seq(|ds|, i requires 0 <= i < |ds| => IntClass(ds[i]))
  }

  /**
   * What `filter_boxes_by_class_thresholds` returns: the detections whose
   * score reaches `thresholds[str(int(cls))]` (0 for a class not listed),
   * in input order, each class as an integer.
   */
  function FilterByClass<B>(t: Triples<B>, names: map<string, real>): (r: Triples<B>)
    ensures |r.boxes| == |r.scores| == |r.classes| <= Min(|t.boxes|, Min(|t.scores|, |t.classes|))
  {
    Unzip(IntClasses(Select(Zip(t), ByName(names))))
  }

  /** `filter_boxes_by_class_thresholds` */
  method FilterBoxesByClassThresholds<B>(t: Triples<B>, names: map<string, real>) returns (r: Triples<B>)
    ensures r == FilterByClass(t, names)
  {
    var n := Min(|t.boxes|, Min(|t.scores|, |t.classes|));
    ghost var ds := Zip(t);
    ghost var kept: seq<Detection<B>> := [];
    var boxes: seq<B> := [];
    var scores: seq<real> := [];
    var classes: seq<real> := [];
    var i := 0;
    while i < n
      invariant i <= n
      invariant kept == IntClasses(Select(ds[..i], ByName(names)))
      invariant Triples(boxes, scores, classes) == Unzip(kept)
    {
      assert ds[..i + 1][..i] == ds[..i];
      var cls := Trunc(t.classes[i]);
      if t.scores[i] >= Get(names, ShowInt(cls), 0.0) {
        IntClassesSnoc(Select(ds[..i], ByName(names)), ds[i]);
        UnzipSnoc(kept, IntClass(ds[i]));
        kept := kept + [IntClass(ds[i])];
        boxes := boxes + [t.boxes[i]];
        scores := scores + [t.scores[i]];
        classes := classes + [cls as real];
      } else {
        assert Select(ds[..i + 1], ByName(names)) == Select(ds[..i], ByName(names)) + [];
      }
      i := i + 1;
    }
    assert ds[..i] == ds;
    r := Triples(boxes, scores, classes);
  }

  lemma IntClassesSnoc<B>(ds: seq<Detection<B>>, d: Detection<B>)
    ensures IntClasses(ds + [d]) == IntClasses(ds) + [IntClass(d)]
  {
  }

  lemma UnzipSnoc<B>(ds: seq<Detection<B>>, d: Detection<B>)
    ensures Unzip(ds + [d]) == Triples(Unzip(ds).boxes + [d.box], Unzip(ds).scores + [d.score], Unzip(ds).classes + [d.cls])
  {
  }

  /** Converting a class that is already an integer changes neither it nor whether it passes. */
  lemma IntClassTwice<B>(d: Detection<B>, names: map<string, real>)
    ensures IntClass(IntClass(d)) == IntClass(d)
    ensures Passes(ByName(names), IntClass(d)) == Passes(ByName(names), d)
  {
    TruncWhole(Trunc(d.cls));
  }

  /** Selection by class name commutes with converting classes to integers. */
  lemma {:induction false} SelectIntClasses<B>(ds: seq<Detection<B>>, names: map<string, real>)
    ensures Select(IntClasses(ds), ByName(names)) == IntClasses(Select(ds, ByName(names)))
    decreases |ds|
  {
    if ds != [] {
      var front := ds[..|ds| - 1];
      var d := ds[|ds| - 1];
      var ints := IntClasses(ds);
      SelectIntClasses(front, names);
      assert ints[..|ints| - 1] == IntClasses(front);
      assert ints[|ints| - 1] == IntClass(d);
      IntClassTwice(d, names);
      var kept := Select(front, ByName(names));
      if Passes(ByName(names), d) {
        assert IntClasses(kept + [d]) == IntClasses(kept) + [IntClass(d)];
      } else {
        assert kept + [] == kept;
      }
    }
  }

  lemma IntClassesTwice<B>(ds: seq<Detection<B>>)
    ensures IntClasses(IntClasses(ds)) == IntClasses(ds)
  {
    forall i | 0 <= i < |ds|
      ensures IntClasses(IntClasses(ds))[i] == IntClasses(ds)[i]
    {
      IntClassTwice(ds[i], map[]);
    }
  }

  /** Filtering twice with the same thresholds gives the same lists as filtering once. */
  lemma FilterIdempotent<B>(t: Triples<B>, names: map<string, real>)
    ensures FilterByClass(FilterByClass(t, names), names) == FilterByClass(t, names)
  {
    var kept := IntClasses(Select(Zip(t), ByName(names)));
    ZipUnzip(kept);
    SelectIntClasses(Select(Zip(t), ByName(names)), names);
    SelectIdempotent(Zip(t), ByName(names));
    IntClassesTwice(Select(Zip(t), ByName(names)));
  }

  // ---------------------------------------------------------------- results_for_filtered

  /** What `results_for_filtered` returns: the detections that pass, classes unchanged. */
  function FilteredResults<B>(t: Triples<B>, th: Thresholds): (r: Triples<B>)
    ensures |r.boxes| == |r.scores| == |r.classes| <= Min(|t.boxes|, Min(|t.scores|, |t.classes|))
  {
    Unzip(Select(Zip(t), th))
  }

  /** `results_for_filtered`; `NoThresholds` is `classes_treshs` set to `None`. */
  method ResultsForFiltered<B>(t: Triples<B>, th: Thresholds) returns (r: Triples<B>)
    requires !th.ByName?
    ensures r == FilteredResults(t, th)
  {
    var n := Min(|t.boxes|, Min(|t.scores|, |t.classes|));
    ghost var ds := Zip(t);
    ghost var kept: seq<Detection<B>> := [];
    var boxes: seq<B> := [];
    var scores: seq<real> := [];
    var classes: seq<real> := [];
    var i := 0;
    while i < n
      invariant i <= n
      invariant kept == Select(ds[..i], th)
      invariant Triples(boxes, scores, classes) == Unzip(kept)
    {
      assert ds[..i + 1][..i] == ds[..i];
      if th.NoThresholds? || t.scores[i] >= Get(th.classes, Trunc(t.classes[i]), 0.1) {
        UnzipSnoc(kept, ds[i]);
        kept := kept + [ds[i]];
        boxes := boxes + [t.boxes[i]];
        scores := scores + [t.scores[i]];
        classes := classes + [t.classes[i]];
      } else {
        assert Select(ds[..i + 1], th) == Select(ds[..i], th) + [];
      }
      i := i + 1;
    }
    assert ds[..i] == ds;
    r := Triples(boxes, scores, classes);
  }

  /** With `None` thresholds every detection is kept, as far as the shortest list reaches. */
  lemma FilteredKeepsAll<B>(t: Triples<B>)
    requires |t.boxes| == |t.scores| == |t.classes|
    ensures FilteredResults(t, NoThresholds) == t
  {
    SelectNoThresholds(Zip(t));
  }

  /**
   * The two filters read an unlisted class differently: with no thresholds
   * given, a detection scoring 0.05 passes `filter_boxes_by_class_thresholds`
   * (default 0) but not `results_for_filtered` (default 0.1).
   */
  lemma DefaultsDiffer<B>(box: B, cls: real)
    ensures Passes(ByName(map[]), Detection(box, 0.05, cls))
    ensures !Passes(ByClass(map[]), Detection(box, 0.05, cls))
  {
  }

  // ---------------------------------------------------------------- normalize_boxes

  /** A box as two corners, `[x_min, y_min, x_max, y_max]`. */
  datatype Corners = Corners(x1: real, y1: real, x2: real, y2: real)

  /** The box in units of the image size. */
  function Normalized(b: Corners, width: nat, height: nat): Corners
    requires width > 0 && height > 0
  {
    Corners(b.x1 / width as real, b.y1 / height as real, b.x2 / width as real, b.y2 / height as real)
  }

  /** The box in pixels again. */
  function InPixels(b: Corners, width: nat, height: nat): Corners
  {
    Corners(b.x1 * width as real, b.y1 * height as real, b.x2 * width as real, b.y2 * height as real)
  }

  /** Scaling back to pixels recovers the box. */
  lemma NormalizedInPixels(b: Corners, width: nat, height: nat)
    requires width > 0 && height > 0
    ensures InPixels(Normalized(b, width, height), width, height) == b
  {
    DivMul(b.x1, width as real);
    DivMul(b.y1, height as real);
    DivMul(b.x2, width as real);
    DivMul(b.y2, height as real);
  }

  lemma DivMul(x: real, n: real)
    requires n > 0.0
    ensures x / n * n == x
  {
  }

  /** A box inside the image lands in the unit square. */
  lemma NormalizedUnit(b: Corners, width: nat, height: nat)
    requires width > 0 && height > 0
    requires 0.0 <= b.x1 <= width as real && 0.0 <= b.x2 <= width as real
    requires 0.0 <= b.y1 <= height as real && 0.0 <= b.y2 <= height as real
    ensures var n := Normalized(b, width, height);
            0.0 <= n.x1 <= 1.0 && 0.0 <= n.x2 <= 1.0 && 0.0 <= n.y1 <= 1.0 && 0.0 <= n.y2 <= 1.0
  {
    ShareBound(b.x1, width as real);
    ShareBound(b.x2, width as real);
    ShareBound(b.y1, height as real);
    ShareBound(b.y2, height as real);
  }

  /** `normalize_boxes` */
  method NormalizeBoxes(boxes: seq<Corners>, width: nat, height: nat) returns (r: seq<Corners>)
    requires width > 0 && height > 0
    ensures |r| == |boxes|
    ensures forall i :: 0 <= i < |boxes| ==> r[i] == Normalized(boxes[i], width, height)
  {
    r := [];
    var i := 0;
    while i < |boxes|
      invariant i <= |boxes| && |r| == i
      invariant forall j :: 0 <= j < i ==> r[j] == Normalized(boxes[j], width, height)
    {
      r := r + [Normalized(boxes[i], width, height)];
      i := i + 1;
    }
  }

  // ---------------------------------------------------------------- results_for_wbf

  /**
   * The lists handed to weighted box fusion: one list per model when some
   * detection survives the filter (the filtered model and an empty one),
   * or the unfiltered lists themselves when none does.
   */
  datatype FusionInput =
    | PerModel(boxes: seq<seq<Corners>>, scores: seq<seq<real>>, classes: seq<seq<real>>)
    | Unfiltered(allBoxes: seq<Corners>, allScores: seq<real>, allClasses: seq<real>)

  /** `results_for_wbf` on the detector's boxes, scores and classes, `image_size` being `(width, height)`. */
  method ResultsForWbf(boxes: seq<Corners>, scores: seq<real>, classes: seq<real>,
                       width: nat, height: nat, names: map<string, real>) returns (r: FusionInput)
    requires width > 0 && height > 0
    ensures var f := FilterByClass(Triples(NormalizedAll(boxes, width, height), scores, classes), names);
            if f.boxes != [] then r == PerModel([f.boxes, []], [f.scores, []], [f.classes, []])
            else r == Unfiltered(NormalizedAll(boxes, width, height), scores, classes)
  {
    var normalized := NormalizeBoxes(boxes, width, height);
    assert normalized == NormalizedAll(boxes, width, height);
    var f := FilterBoxesByClassThresholds(Triples(normalized, scores, classes), names);
    if f.boxes != [] {
      r := PerModel([f.boxes, []], [f.scores, []], [f.classes, []]);
    } else {
      r := Unfiltered(normalized, scores, classes);
    }
  }

  /** Every box in units of the image size. */
  function NormalizedAll(boxes: seq<Corners>, width: nat, height: nat): (r: seq<Corners>)
    requires width > 0 && height > 0
    ensures |r| == |boxes|
  {
    seq(|boxes|, i requires 0 <= i < |boxes| => Normalized(boxes[i], width, height))
  }

  /** The lists are split per model exactly when some detection reaches its class's threshold. */
  lemma PerModelWhenSomePasses(t: Triples<Corners>, names: map<string, real>)
    ensures FilterByClass(t, names).boxes != [] <==> exists d :: d in Zip(t) && Passes(ByName(names), d)
  {
    var kept := Select(Zip(t), ByName(names));
    SelectSound(Zip(t), ByName(names));
    SelectComplete(Zip(t), ByName(names));
    if kept != [] {
      assert kept[0] in kept;
    }
  }
}
