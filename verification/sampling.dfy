/**
 * Choosing which frames to extract from the per-frame speeds:
 * `calculate_frame_extraction_points`, in its two copies. The list starts
 * with frame 0; the first frame at walking pace or faster (1.5 m/s) is
 * added once; afterwards a frame is added whenever the distance covered
 * since the last one reaches the visual coverage. `src/video/VIDEO.py`
 * counts and skips a NaN displacement; `Video/utils/displacement_functions.py`
 * adds it, and a NaN running distance never reaches the coverage again.
 */
module Sampling {
  import opened Base

  /** A float as the pipeline sees it: a number or NaN. */
  datatype Float = Num(v: real) | NaN

  /** `speed < 1.5` is false for NaN, so a NaN speed counts as moving. */
  predicate Moving(s: Float)
  {
    !(s.Num? && s.v < 1.5)
  }

  /** The distance covered in one frame: the speed times the frame interval. */
  function Displacement(speed: real, interval: real): real
  {
    speed * interval
  }

  // ---------------------------------------------------------------- reference definitions over a prefix

  /** The first moving frame among the first `n`. */
  function FirstMoving(speeds: seq<Float>, n: nat): (r: Option<nat>)
    requires n <= |speeds|
    ensures r.Some? ==> r.value < n && Moving(speeds[r.value])
    ensures r.Some? ==> forall j :: 0 <= j < r.value ==> !Moving(speeds[j])
    ensures r.None? <==> forall j :: 0 <= j < n ==> !Moving(speeds[j])
  {
    if n == 0 then None
    else
      match FirstMoving(speeds, n - 1)
      case Some(k) => Some(k)
      case None => if Moving(speeds[n - 1]) then Some(n - 1) else None
  }

  /** The moving frames among the first `n`, in order. */
  function MovingFrames(speeds: seq<Float>, n: nat): (r: seq<int>)
    requires n <= |speeds|
    ensures forall k :: 0 <= k < |r| ==> 0 <= r[k] < n && Moving(speeds[r[k]])
  {
    if n == 0 then []
    else MovingFrames(speeds, n - 1) + (if Moving(speeds[n - 1]) then [n - 1] else [])
  }

  /** How many of the first `n` speeds are NaN. */
  function NanCount(speeds: seq<Float>, n: nat): nat
    requires n <= |speeds|
  {
    if n == 0 then 0 else NanCount(speeds, n - 1) + (if speeds[n - 1].NaN? then 1 else 0)
  }

  /**
   * What both copies promise of a point list after `n` frames: frame 0
   * first, every later point a moving frame among the first `n`, in
   * non-decreasing order.
   */
  predicate Shaped(points: seq<int>, speeds: seq<Float>, n: nat)
    requires n <= |speeds|
  {
    |points| >= 1 && points[0] == 0
    && (forall k :: 1 <= k < |points| ==> 0 <= points[k] < n && Moving(speeds[points[k]]))
    && (forall k :: 0 <= k < |points| - 1 ==> points[k] <= points[k + 1])
  }

  // ---------------------------------------------------------------- src/video/VIDEO.py

  /** The loop variables of the `src` copy: running distance, `flag`, the points, NaNs counted. */
  datatype SrcState = SrcState(distance: real, flag: bool, points: seq<int>, nans: nat)

  /** One frame of the `src` loop. */
  function SrcStep(st: SrcState, i: nat, s: Float, interval: real, coverage: real): SrcState
  {
    if !Moving(s) then st
    else
      var points := if st.flag then st.points else st.points + [i];
      var distance := if s.NaN? then st.distance else st.distance + Displacement(s.v, interval);
      var nans := if s.NaN? then st.nans + 1 else st.nans;
      if distance >= coverage then SrcState(0.0, true, points + [i], nans)
      else SrcState(distance, true, points, nans)
  }

  /** The `src` loop after the first `n` frames. */
  function SrcScan(speeds: seq<Float>, n: nat, interval: real, coverage: real): SrcState
    requires n <= |speeds|
  {
    if n == 0 then SrcState(0.0, false, [0], 0)
    else SrcStep(SrcScan(speeds, n - 1, interval, coverage), n - 1, speeds[n - 1], interval, coverage)
  }

  /**
   * The `src` points are shaped; `flag` is set exactly when a moving frame
   * was seen, and then the second point is the first moving frame; there is
   * at most one point per moving frame besides frame 0 and the first one.
   */
  lemma {:induction false} SrcScanShape(speeds: seq<Float>, n: nat, interval: real, coverage: real)
    requires n <= |speeds|
    ensures var st := SrcScan(speeds, n, interval, coverage);
            Shaped(st.points, speeds, n)
            && (st.flag <==> FirstMoving(speeds, n).Some?)
            && (st.flag ==> |st.points| >= 2 && st.points[1] == FirstMoving(speeds, n).value)
            && |st.points| <= 1 + (if st.flag then 1 else 0) + |MovingFrames(speeds, n)|
  {
    if n > 0 {
      SrcScanShape(speeds, n - 1, interval, coverage);
    }
  }

  /** `counternan` grows by the number of NaN speeds: a NaN speed always counts as moving. */
  lemma {:induction false} SrcCountsNans(speeds: seq<Float>, n: nat, interval: real, coverage: real)
    requires n <= |speeds|
    ensures SrcScan(speeds, n, interval, coverage).nans == NanCount(speeds, n)
  {
    if n > 0 {
      SrcCountsNans(speeds, n - 1, interval, coverage);
    }
  }

  /** `src/video/VIDEO.py`'s video object: its frame rate, the visual coverage, and the NaN counter. */
  class FrameSampler {
    var fps: real
    var visualCoverage: real
    var counterNan: nat

    constructor(fps: real, visualCoverage: real)
      ensures this.fps == fps && this.visualCoverage == visualCoverage && counterNan == 0
    {
      this.fps := fps;
      this.visualCoverage := visualCoverage;
      counterNan := 0;
    }

    /**
     * `calculate_frame_extraction_points`: a zero frame rate raises
     * `ZeroDivisionError` before the loop; otherwise the points of the
     * scan, and `counternan` grows by the NaNs met.
     */
    method ExtractionPoints(speeds: seq<Float>) returns (r: Result<seq<int>>)
      modifies this
      ensures fps == old(fps) && visualCoverage == old(visualCoverage)
      ensures old(fps) == 0.0 ==> r.Err? && counterNan == old(counterNan)
      ensures old(fps) != 0.0 ==>
                var st := SrcScan(speeds, |speeds|, 1.0 / fps, visualCoverage);
                r == Ok(st.points) && counterNan == old(counterNan) + st.nans
    {
      if fps == 0.0 {
        return Err("ZeroDivisionError");
      }
      var interval := 1.0 / fps;
      var distance := 0.0;
      var points := [0];
      var flag := false;
      var i := 0;
      while i < |speeds|
        invariant i <= |speeds|
        invariant fps == old(fps) && visualCoverage == old(visualCoverage)
        invariant counterNan >= old(counterNan)
        invariant SrcState(distance, flag, points, counterNan - old(counterNan)) == SrcScan(speeds, i, interval, visualCoverage)
      {
        var speed := speeds[i];
        if Moving(speed) {
          if !flag {
            points := points + [i];
            flag := true;
          }
          if speed.Num? {
            distance := distance + Displacement(speed.v, interval);
          } else {
            counterNan := counterNan + 1;
          }
          if distance >= visualCoverage {
            points := points + [i];
            distance := 0.0;
          }
        }
        i := i + 1;
      }
      r := Ok(points);
    }
  }

  // ---------------------------------------------------------------- Video/utils/displacement_functions.py

  /** The loop variables of the `Video` copy: running distance (possibly NaN), `flag`, the points. */
  datatype VideoState = VideoState(distance: Float, flag: bool, points: seq<int>)

  /** `distance + speed * interval`, NaN when either is NaN. */
  function Advance(distance: Float, s: Float, interval: real): Float
  {
    if distance.Num? && s.Num? then Num(distance.v + Displacement(s.v, interval)) else NaN
  }

  /** One frame of the `Video` loop. */
  function VideoStep(st: VideoState, i: nat, s: Float, interval: real, coverage: real): VideoState
  {
    if !Moving(s) then st
    else
      var points := if st.flag then st.points else st.points + [i];
      var distance := Advance(st.distance, s, interval);
      if distance.Num? && distance.v >= coverage then VideoState(Num(0.0), true, points + [i])
      else VideoState(distance, true, points)
  }

  /** The `Video` loop after the first `n` frames. */
  function VideoScan(speeds: seq<Float>, n: nat, interval: real, coverage: real): VideoState
    requires n <= |speeds|
  {
    if n == 0 then VideoState(Num(0.0), false, [0])
    else VideoStep(VideoScan(speeds, n - 1, interval, coverage), n - 1, speeds[n - 1], interval, coverage)
  }

  /** The `Video` points have the same shape, first point and bound as the `src` ones. */
  lemma {:induction false} VideoScanShape(speeds: seq<Float>, n: nat, interval: real, coverage: real)
    requires n <= |speeds|
    ensures var st := VideoScan(speeds, n, interval, coverage);
            Shaped(st.points, speeds, n)
            && (st.flag <==> FirstMoving(speeds, n).Some?)
            && (st.flag ==> |st.points| >= 2 && st.points[1] == FirstMoving(speeds, n).value)
            && |st.points| <= 1 + (if st.flag then 1 else 0) + |MovingFrames(speeds, n)|
  {
    if n > 0 {
      VideoScanShape(speeds, n - 1, interval, coverage);
    }
  }

  /** Once a NaN speed is met at frame `j`, the `Video` copy extracts nothing after `j`. */
  lemma {:induction false} VideoNanStops(speeds: seq<Float>, n: nat, j: nat, interval: real, coverage: real)
    requires j < n <= |speeds| && speeds[j].NaN?
    ensures var st := VideoScan(speeds, n, interval, coverage);
            st.distance == NaN && st.flag
            && forall k :: 0 <= k < |st.points| ==> st.points[k] <= j
  {
    if n == j + 1 {
      VideoScanShape(speeds, n, interval, coverage);
    } else {
      VideoNanStops(speeds, n - 1, j, interval, coverage);
    }
  }

  /** `calculate_frame_extraction_points` of `Video/utils/displacement_functions.py`. */
  method VideoExtractionPoints(speeds: seq<Float>, fps: real, visualCoverage: real) returns (r: Result<seq<int>>)
    ensures fps == 0.0 <==> r.Err?
    ensures fps != 0.0 ==> r == Ok(VideoScan(speeds, |speeds|, 1.0 / fps, visualCoverage).points)
  {
    if fps == 0.0 {
      return Err("ZeroDivisionError");
    }
    var interval := 1.0 / fps;
    var distance := Num(0.0);
    var points := [0];
    var flag := false;
    var i := 0;
    while i < |speeds|
      invariant i <= |speeds|
      invariant VideoState(distance, flag, points) == VideoScan(speeds, i, interval, visualCoverage)
    {
      var speed := speeds[i];
      if Moving(speed) {
        if !flag {
          points := points + [i];
          flag := true;
        }
        distance := Advance(distance, speed, interval);
        if distance.Num? && distance.v >= visualCoverage {
          points := points + [i];
          distance := Num(0.0);
        }
      }
      i := i + 1;
    }
    r := Ok(points);
  }

  // ---------------------------------------------------------------- both copies

  /** With no frame at 1.5 m/s or faster, both copies give `[0]`. */
  lemma AllSlow(speeds: seq<Float>, interval: real, coverage: real)
    requires forall j :: 0 <= j < |speeds| ==> !Moving(speeds[j])
    ensures SrcScan(speeds, |speeds|, interval, coverage).points == [0]
    ensures VideoScan(speeds, |speeds|, interval, coverage).points == [0]
  {
    SrcScanShape(speeds, |speeds|, interval, coverage);
    VideoScanShape(speeds, |speeds|, interval, coverage);
    NoMovingFrames(speeds, |speeds|);
  }

  lemma {:induction false} NoMovingFrames(speeds: seq<Float>, n: nat)
    requires n <= |speeds|
    requires forall j :: 0 <= j < n ==> !Moving(speeds[j])
    ensures MovingFrames(speeds, n) == []
  {
    if n > 0 {
      NoMovingFrames(speeds, n - 1);
    }
  }

  /** Frame 0, the first moving frame, then every moving frame in order. */
  function EveryMoving(speeds: seq<Float>, n: nat): seq<int>
    requires n <= |speeds|
  {
    var first := FirstMoving(speeds, n);
    [0] + (if first.Some? then [first.value] else []) + MovingFrames(speeds, n)
  }

  /** Each moving frame alone covers the visual coverage. */
  predicate EachCovers(speeds: seq<Float>, n: nat, interval: real, coverage: real)
    requires n <= |speeds|
  {
    forall j :: 0 <= j < n && Moving(speeds[j]) ==> speeds[j].Num? && Displacement(speeds[j].v, interval) >= coverage
  }

  /** The points gained by a frame when each moving frame covers the coverage. */
  lemma EveryMovingStep(speeds: seq<Float>, n: nat)
    requires 0 < n <= |speeds|
    ensures EveryMoving(speeds, n) ==
              if !Moving(speeds[n - 1]) then EveryMoving(speeds, n - 1)
              else if FirstMoving(speeds, n - 1).None? then [0, n - 1, n - 1]
              else EveryMoving(speeds, n - 1) + [n - 1]
  {
    if Moving(speeds[n - 1]) && FirstMoving(speeds, n - 1).None? {
      NoMovingFrames(speeds, n - 1);
    }
  }

  /** A moving frame that alone covers the coverage, after a reset: extracted, and the distance reset again. */
  lemma SrcCoveredStep(st: SrcState, i: nat, s: Float, interval: real, coverage: real)
    requires st.distance == 0.0 && Moving(s) && s.Num? && Displacement(s.v, interval) >= coverage
    ensures SrcStep(st, i, s, interval, coverage)
         == SrcState(0.0, true, (if st.flag then st.points else st.points + [i]) + [i], st.nans)
  {
  }

  lemma VideoCoveredStep(st: VideoState, i: nat, s: Float, interval: real, coverage: real)
    requires st.distance == Num(0.0) && Moving(s) && s.Num? && Displacement(s.v, interval) >= coverage
    ensures VideoStep(st, i, s, interval, coverage)
         == VideoState(Num(0.0), true, (if st.flag then st.points else st.points + [i]) + [i])
  {
    assert Advance(st.distance, s, interval) == Num(0.0 + Displacement(s.v, interval));
  }

  /**
   * When every moving frame alone covers the visual coverage, the `src`
   * copy extracts every moving frame, the first one twice.
   */
  lemma {:induction false} SrcEveryMoving(speeds: seq<Float>, n: nat, interval: real, coverage: real)
    requires n <= |speeds| && EachCovers(speeds, n, interval, coverage)
    ensures SrcScan(speeds, n, interval, coverage).points == EveryMoving(speeds, n)
    ensures SrcScan(speeds, n, interval, coverage).distance == 0.0
    ensures SrcScan(speeds, n, interval, coverage).flag <==> FirstMoving(speeds, n).Some?
  {
    if n > 0 {
      var sp := speeds[n - 1];
      assert EachCovers(speeds, n - 1, interval, coverage);
      SrcEveryMoving(speeds, n - 1, interval, coverage);
      EveryMovingStep(speeds, n);
      var prev := SrcScan(speeds, n - 1, interval, coverage);
      assert SrcScan(speeds, n, interval, coverage) == SrcStep(prev, n - 1, sp, interval, coverage);
      assert FirstMoving(speeds, n).Some? <==> FirstMoving(speeds, n - 1).Some? || Moving(sp);
      if Moving(sp) {
        SrcCoveredStep(prev, n - 1, sp, interval, coverage);
        if !prev.flag {
          assert prev.points == [0];
        }
      }
    }
  }

  /** The same for the `Video` copy, which meets no NaN here. */
  lemma {:induction false} VideoEveryMoving(speeds: seq<Float>, n: nat, interval: real, coverage: real)
    requires n <= |speeds| && EachCovers(speeds, n, interval, coverage)
    ensures VideoScan(speeds, n, interval, coverage).points == EveryMoving(speeds, n)
    ensures VideoScan(speeds, n, interval, coverage).distance == Num(0.0)
    ensures VideoScan(speeds, n, interval, coverage).flag <==> FirstMoving(speeds, n).Some?
  {
    if n > 0 {
      var sp := speeds[n - 1];
      assert EachCovers(speeds, n - 1, interval, coverage);
      VideoEveryMoving(speeds, n - 1, interval, coverage);
      EveryMovingStep(speeds, n);
      var prev := VideoScan(speeds, n - 1, interval, coverage);
      assert VideoScan(speeds, n, interval, coverage) == VideoStep(prev, n - 1, sp, interval, coverage);
      assert FirstMoving(speeds, n).Some? <==> FirstMoving(speeds, n - 1).Some? || Moving(sp);
      if Moving(sp) {
        VideoCoveredStep(prev, n - 1, sp, interval, coverage);
        if !prev.flag {
          assert prev.points == [0];
        }
      }
    }
  }

  /**
   * The copies part at a NaN: with a NaN speed first and two fast frames
   * after it, `src` extracts both fast frames and `Video` neither.
   */
  lemma NanCopiesDiffer()
    ensures SrcScan([NaN, Num(2.0), Num(2.0)], 3, 1.0, 1.0).points == [0, 0, 1, 2]
    ensures VideoScan([NaN, Num(2.0), Num(2.0)], 3, 1.0, 1.0).points == [0, 0]
  {
  }
}
