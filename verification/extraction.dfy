/**
 * The frame extractors of `Video/utils/displacement_functions.py`
 * (`extract_specific_frames2` and its three `_512` variants): how the
 * sampled frame indices, which count frames of the whole recording, are
 * walked across the camera's consecutive video files, which square of
 * each frame is cut out, and what the saved image is called.  Opening,
 * seeking, reading, resizing and writing images are left to OpenCV and
 * are not modelled; a video file enters only through its frame count.
 */
module Extraction {
  import opened Base

  // ---------------------------------------------------------------- walking the videos

  /**
   * What one pass of the loop does with one extraction point: the video
   * it reads, the index handed to the seek (`frame_idx`, read before any
   * shift) and the point as it stands after the shift (the array entry
   * the saved name of `extract_specific_frames2` is built from).
   */
  datatype Seek = Seek(video: nat, frameIdx: int, position: int)

  /** Frames in the videos before video `v`. */
  function Before(counts: seq<nat>, v: nat): int
    requires v <= |counts|
  {
    if v == 0 then 0 else Before(counts, v - 1) + counts[v - 1]
  }

  /**
   * The seeks made for the points from `i` on while video `v` is open:
   * every point has already been lowered by the frames of the videos
   * before `v`.  A point past the end of the open video moves on to the
   * next one, lowering the remaining points by the frames just left
   * behind; when there is no next video the extraction ends.
   */
  function Run(points: seq<int>, counts: seq<nat>, v: nat, i: nat): seq<Seek>
    requires v < |counts| && i <= |points|
    decreases |points| - i
  {
    if i == |points| then []
    else
      var idx := points[i] - Before(counts, v);
      if idx <= counts[v] then [Seek(v, idx, idx)] + Run(points, counts, v, i + 1)
      else if v + 1 == |counts| then []
      else [Seek(v + 1, idx, idx - counts[v])] + Run(points, counts, v + 1, i + 1)
  }

  /** One step of `Run`: the seek for point `i`, then the rest. */
  lemma RunStep(points: seq<int>, counts: seq<nat>, v: nat, i: nat)
    requires v < |counts| && i < |points|
    ensures var idx := points[i] - Before(counts, v);
      Run(points, counts, v, i) ==
        if idx <= counts[v] then [Seek(v, idx, idx)] + Run(points, counts, v, i + 1)
        else if v + 1 == |counts| then []
        else [Seek(v + 1, idx, idx - counts[v])] + Run(points, counts, v + 1, i + 1)
  {
  }

  /** `points - amount` on a NumPy array: every entry lowered by `amount`. */
  function Lowered(points: seq<int>, amount: int): (r: seq<int>)
    ensures |r| == |points| && forall k :: 0 <= k < |points| ==> r[k] == points[k] - amount
  {
    seq(|points|, k requires 0 <= k < |points| => points[k] - amount)
  }

  /**
   * The loop over the extraction points, with the array shifted in place
   * as the source does.  No video at all fails on `videos[0]`.
   */
  method ExtractionSeeks(points: seq<int>, counts: seq<nat>) returns (r: Result<seq<Seek>>)
    ensures counts == [] <==> r.Err?
    ensures counts != [] ==> r == Ok(Run(points, counts, 0, 0))
  {
    if counts == [] {
      return Err("IndexError");
    }
    ghost var whole := Run(points, counts, 0, 0);
    var pts := points;
    var v := 0;
    var seeks := [];
    var i := 0;
    while i < |points|
      invariant 0 <= i <= |points| && v < |counts|
      invariant |pts| == |points|
      invariant forall k :: 0 <= k < |pts| ==> pts[k] == points[k] - Before(counts, v)
      invariant seeks + Run(points, counts, v, i) == whole
    {
      RunStep(points, counts, v, i);
      var frameIdx := pts[i];
      ghost var rest := Run(points, counts, v, i);
      if frameIdx > counts[v] {
        v := v + 1;
        if v == |counts| {
          assert rest == [];
          break;
        }
        var c := counts[v - 1];
        pts := Lowered(pts, c);
      }
      var s := Seek(v, frameIdx, pts[i]);
      assert rest == [s] + Run(points, counts, v, i + 1);
      Associative(seeks, [s], Run(points, counts, v, i + 1));
      seeks := seeks + [s];
      i := i + 1;
    }
    assert seeks == whole;
    return Ok(seeks);
  }

  /**
   * At most one seek per point; every seek names a video that exists,
   * and the videos are visited in order, never going back and at most
   * one video further per point.
   */
  lemma {:induction false} RunVideos(points: seq<int>, counts: seq<nat>, v: nat, i: nat)
    requires v < |counts| && i <= |points|
    ensures var r := Run(points, counts, v, i);
      |r| <= |points| - i &&
      (forall k :: 0 <= k < |r| ==> v <= r[k].video < |counts|) &&
      (|r| > 0 ==> r[0].video <= v + 1) &&
      (forall k :: 0 <= k < |r| - 1 ==> r[k].video <= r[k + 1].video <= r[k].video + 1)
    decreases |points| - i
  {
    if i < |points| {
      var idx := points[i] - Before(counts, v);
      if idx <= counts[v] {
        RunVideos(points, counts, v, i + 1);
      } else if v + 1 < |counts| {
        RunVideos(points, counts, v + 1, i + 1);
      }
    }
  }

  /**
   * The points are handled as a prefix: the walk stops early only at a
   * point past the end of the last video, and it stops at the first one.
   */
  lemma {:induction false} RunStops(points: seq<int>, counts: seq<nat>, v: nat, i: nat)
    requires v < |counts| && i <= |points|
    ensures var r := Run(points, counts, v, i);
      var last := if r == [] then v else r[|r| - 1].video;
      i + |r| < |points| ==>
        last == |counts| - 1 && points[i + |r|] - Before(counts, last) > counts[last]
    decreases |points| - i
  {
    if i < |points| {
      var idx := points[i] - Before(counts, v);
      var r := Run(points, counts, v, i);
      RunStep(points, counts, v, i);
      if idx <= counts[v] {
        var tail := Run(points, counts, v, i + 1);
        RunStops(points, counts, v, i + 1);
        assert |r| == |tail| + 1;
        assert tail != [] ==> r[|r| - 1] == tail[|tail| - 1];
      } else if v + 1 < |counts| {
        var tail := Run(points, counts, v + 1, i + 1);
        RunStops(points, counts, v + 1, i + 1);
        assert |r| == |tail| + 1;
        assert tail != [] ==> r[|r| - 1] == tail[|tail| - 1];
      } else {
        assert r == [];
      }
    }
  }

  /** Seeking `position` in the seek's video reads frame `point` of the recording. */
  predicate Reaches(s: Seek, counts: seq<nat>, point: int)
  {
    s.video < |counts| && Before(counts, s.video) + s.position == point
  }

  /**
   * The shifted position of every seek, counted from the start of its
   * video, is the point's frame in the whole recording.
   */
  lemma {:induction false} RunPositions(points: seq<int>, counts: seq<nat>, v: nat, i: nat)
    requires v < |counts| && i <= |points|
    ensures var r := Run(points, counts, v, i);
      i + |r| <= |points| &&
      forall k :: 0 <= k < |r| ==> Reaches(r[k], counts, points[i + k])
    decreases |points| - i
  {
    if i < |points| {
      var idx := points[i] - Before(counts, v);
      var r := Run(points, counts, v, i);
      RunStep(points, counts, v, i);
      if idx <= counts[v] {
        var tail := Run(points, counts, v, i + 1);
        RunPositions(points, counts, v, i + 1);
        forall k | 0 <= k < |r| ensures Reaches(r[k], counts, points[i + k]) {
          if k > 0 {
            assert r[k] == tail[k - 1] && i + k == (i + 1) + (k - 1);
          }
        }
      } else if v + 1 < |counts| {
        var tail := Run(points, counts, v + 1, i + 1);
        RunPositions(points, counts, v + 1, i + 1);
        forall k | 0 <= k < |r| ensures Reaches(r[k], counts, points[i + k]) {
          if k > 0 {
            assert r[k] == tail[k - 1] && i + k == (i + 1) + (k - 1);
          }
        }
      }
    }
  }

  /**
   * The seek index is the shifted position, or it is the index of a point
   * that opened a new video, still counted from the start of the previous
   * video: `counts[video - 1]` frames too far, past that video's end.
   */
  predicate SeekUnshifted(s: Seek, counts: seq<nat>)
  {
    s.frameIdx == s.position ||
    (0 < s.video < |counts| && s.frameIdx == s.position + counts[s.video - 1] &&
     s.frameIdx > counts[s.video - 1])
  }

  /** Every seek the walk makes is either at its shifted position or unshifted as above. */
  lemma {:induction false} RunSeeksUnshifted(points: seq<int>, counts: seq<nat>, v: nat, i: nat)
    requires v < |counts| && i <= |points|
    ensures var r := Run(points, counts, v, i);
      forall k :: 0 <= k < |r| ==> SeekUnshifted(r[k], counts)
    decreases |points| - i
  {
    if i < |points| {
      var idx := points[i] - Before(counts, v);
      var r := Run(points, counts, v, i);
      RunStep(points, counts, v, i);
      if idx <= counts[v] {
        var tail := Run(points, counts, v, i + 1);
        RunSeeksUnshifted(points, counts, v, i + 1);
        assert forall k :: 0 < k < |r| ==> r[k] == tail[k - 1];
      } else if v + 1 < |counts| {
        var tail := Run(points, counts, v + 1, i + 1);
        RunSeeksUnshifted(points, counts, v + 1, i + 1);
        assert forall k :: 0 < k < |r| ==> r[k] == tail[k - 1];
      }
    }
  }

  /**
   * Two videos of 100 frames and the points 0 and 150: the second point
   * opens the second video and is named 50 there, but the seek asks that
   * 100-frame video for frame 150.
   */
  lemma SeekPastVideo()
    ensures var r := Run([0, 150], [100, 100], 0, 0);
      r == [Seek(0, 0, 0), Seek(1, 150, 50)] &&
      r[1].frameIdx > 100 &&
      Before([100, 100], r[1].video) + r[1].frameIdx != 150
  {
    var counts: seq<nat> := [100, 100];
    assert Before(counts, 1) == 100;
  }

  /**
   * The seek as it should be: at the shifted position, counted from the
   * start of the video it is made in.
   */
  function CorrectedSeek(s: Seek): (c: Seek)
    ensures c.video == s.video && c.position == s.position
  {
    Seek(s.video, s.position, s.position)
  }

  /**
   * Corrected, every seek's position, counted from the start of the
   * recording (the frames of the earlier videos plus the position in its
   * own video), is the frame that was sampled.
   */
  lemma CorrectedSeeksSampled(points: seq<int>, counts: seq<nat>)
    requires counts != []
    ensures var r := Run(points, counts, 0, 0);
      |r| <= |points| &&
      forall k :: 0 <= k < |r| ==>
        r[k].video < |counts| && Before(counts, r[k].video) + CorrectedSeek(r[k]).frameIdx == points[k]
  {
    var r := Run(points, counts, 0, 0);
    RunPositions(points, counts, 0, 0);
    forall k | 0 <= k < |r|
      ensures r[k].video < |counts| && Before(counts, r[k].video) + CorrectedSeek(r[k]).frameIdx == points[k]
    {
      assert Reaches(r[k], counts, points[0 + k]);
    }
  }

  /**
   * The walk moves on by one video per point, so a point that skips a whole
   * video is sought past the end of the next one even at its shifted
   * position: with three videos of 100 frames and the points 0 and 250,
   * video 1 is asked for frame 150.
   */
  lemma CorrectedSeekSkipsVideo()
    ensures var counts: seq<nat> := [100, 100, 100];
      var r := Run([0, 250], counts, 0, 0);
      r == [Seek(0, 0, 0), Seek(1, 250, 150)] &&
      CorrectedSeek(r[1]).frameIdx > counts[r[1].video]
  {
    var counts: seq<nat> := [100, 100, 100];
    assert Before(counts, 1) == 100;
    assert Run([0, 250], counts, 1, 2) == [];
  }

  // ---------------------------------------------------------------- the crop

  /** A square cut out of a frame: its top-left corner and side, in pixels. */
  datatype Square = Square(x: int, y: int, size: int)

  /** The square lies wholly inside a frame `w` pixels wide and `h` high. */
  predicate Inside(q: Square, w: int, h: int)
  {
    0 <= q.size && 0 <= q.x && q.x + q.size <= w && 0 <= q.y && q.y + q.size <= h
  }

  /**
   * `extract_specific_frames2_512`: with `height == 0` a square of side
   * `cropSize` centred in the frame, otherwise the rows from `height` to
   * the bottom, as wide as they are many, centred across.  `//` is floor
   * division, as Dafny's `/` is for a positive divisor.
   */
  function CentredSquare(w: int, h: int, cropSize: int, height: int): Square
  {
    var size := if height == 0 then cropSize else h - height;
    var y := if height == 0 then (h - cropSize) / 2 else height;
    Square((w - size) / 2, y, size)
  }

  /**
   * With `height == 0` the square fits exactly when its side fits both
   * ways, and its margins left and right, and top and bottom, differ by
   * at most one pixel, the extra one on the right or at the bottom.
   */
  lemma CentredBalanced(w: int, h: int, cropSize: int)
    ensures var q := CentredSquare(w, h, cropSize, 0);
      q.size == cropSize &&
      (Inside(q, w, h) <==> 0 <= cropSize <= w && cropSize <= h) &&
      0 <= (w - q.x - q.size) - q.x <= 1 &&
      0 <= (h - q.y - q.size) - q.y <= 1
  {
  }

  /**
   * With a `height` the square reaches down to the bottom edge, and it
   * fits exactly when `height` lies in the frame and the rows below it
   * are no more than the frame is wide; the columns stay balanced.
   */
  lemma HeightBottomAligned(w: int, h: int, cropSize: int, height: int)
    requires height != 0
    ensures var q := CentredSquare(w, h, cropSize, height);
      q.y == height && q.y + q.size == h &&
      (Inside(q, w, h) <==> 0 < height <= h && h - height <= w) &&
      0 <= (w - q.x - q.size) - q.x <= 1
  {
  }

  /**
   * `extract_specific_frames3_512_decentr`: the same rows, but the left
   * edge at `x0` unless `x0` is 0, when it stays centred.
   */
  function DecentredSquare(w: int, h: int, cropSize: int, height: int, x0: int): Square
  {
    var c := CentredSquare(w, h, cropSize, height);
    if x0 == 0 then c else Square(x0, c.y, c.size)
  }

  /**
   * Moving the left edge keeps the rows and the side; the square is
   * inside exactly when the centred one's rows are and `x0` leaves room
   * for the side.
   */
  lemma DecentredMoves(w: int, h: int, cropSize: int, height: int, x0: int)
    requires x0 != 0
    ensures var q := DecentredSquare(w, h, cropSize, height, x0);
      var c := CentredSquare(w, h, cropSize, height);
      q.x == x0 && q.y == c.y && q.size == c.size &&
      (Inside(q, w, h) <==> 0 < x0 && x0 + c.size <= w && 0 <= c.size && 0 <= c.y && c.y + c.size <= h)
  {
  }

  /**
   * `extract_specific_frames4_512_two_squares`: the decentred square and
   * the one right after it.  The second one's left edge is only assigned
   * when `x0` is not 0, so `x0 == 0` fails on its first use.
   */
  function TwoSquares(w: int, h: int, cropSize: int, height: int, x0: int): Result<(Square, Square)>
  {
    if x0 == 0 then Err("UnboundLocalError")
    else
      var q := DecentredSquare(w, h, cropSize, height, x0);
      Ok((q, Square(q.x + q.size, q.y, q.size)))
  }

  /**
   * The two squares share their rows and side, touch without overlapping,
   * and both fit exactly when the pair does: `x0` plus two sides within
   * the width.
   */
  lemma TwoSquaresAdjacent(w: int, h: int, cropSize: int, height: int, x0: int)
    ensures var r := TwoSquares(w, h, cropSize, height, x0);
      (r.Err? <==> x0 == 0) &&
      (r.Ok? ==>
        var (a, b) := r.value;
        a == DecentredSquare(w, h, cropSize, height, x0) &&
        b.y == a.y && b.size == a.size && b.x == a.x + a.size &&
        (Inside(a, w, h) && Inside(b, w, h) <==>
          0 < x0 && x0 + 2 * a.size <= w && 0 <= a.size && 0 <= a.y && a.y + a.size <= h))
  {
  }
}
