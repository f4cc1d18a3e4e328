/**
 * The files `save_results_wbf` leaves behind, in its two copies: the label
 * file's name and text, the saved image's name, and the drawing of each box
 * that can raise `IndexError` before anything is written.
 */
module LabelFiles {
  import opened Base
  import opened Numeric
  import opened Text
  import opened Labels
  import LaneIndex

  /** The colour a box is drawn in, as (blue, green, red). */
  datatype Colour = Colour(blue: int, green: int, red: int)

  /** What drawing a box needs: its colour and the name written on it. */
  datatype Drawing = Drawing(colour: Colour, name: string)

  /** What one call leaves on disk: the label file, its text, and the image file when images are saved. */
  datatype Saved = Saved(labelFile: string, labelText: string, image: Option<string>)

  const ClassNames: seq<string> := ["Longitudinal", "Transverse", "Alligator", "Pothole", "Manhole"]

  // ---------------------------------------------------------------- src/video/MODELS.py: files

  /** Every line followed by a newline. */
  function Terminated(lines: seq<string>): string
  {
    if lines == [] then [] else lines[0] + "\n" + Terminated(lines[1..])
  }

  /** The label file's text: the lines joined by newlines, with a final newline when there is a line. */
  function LabelText(lines: seq<string>): string
  {
    Join(lines, "\n") + (if lines == [] then "" else "\n")
  }

  /** The label file is every line with its own newline, so it ends with one exactly when it has a line. */
  lemma {:induction false} LabelTextTerminated(lines: seq<string>)
    ensures LabelText(lines) == Terminated(lines)
    ensures lines != [] <==> EndsWith(LabelText(lines), "\n")
    decreases |lines|
  {
    if |lines| > 1 {
      LabelTextTerminated(lines[1..]);
      assert LabelText(lines) == lines[0] + "\n" + LabelText(lines[1..]);
    }
  }

  /** The label file's name: the image's name with its extension replaced by `.txt`. */
  function LabelFileName(name: string): string
  {
    SplitExtRoot(name) + ".txt"
  }

  /** `INDEX.py` names the frame of the label file written for image `name` by that image's name without its extension. */
  lemma FrameOfLabelFile(name: string)
    requires forall j :: 0 <= j < |name| ==> name[j] != '/'
    requires !AllDots(SplitExtRoot(name))
    ensures LaneIndex.FrameName(LabelFileName(name)) == SplitExtRoot(name)
  {
    var root := SplitExtRoot(name);
    var file := LabelFileName(name);
    assert StartsWith(name, root);
    assert forall j :: 0 <= j < |file| ==> file[j] != '/' by {
      forall j | 0 <= j < |file| ensures file[j] != '/' {
        if j < |root| { assert file[j] == name[j]; }
      }
    }
    assert RStripSlash(file) == file;
    assert LastIndexOf(file, '/') == None;
    assert BaseName(file) == file;
    assert LastIndexOf(file, '.') == Some(|root|) by {
      assert file[|root|] == '.';
      assert file[|root| + 1..] == "txt";
    }
    assert file[..|root|] == root;
  }

  /** The three extensions an image keeps, in lower case. */
  predicate ImageExtension(name: string)
  {
    EndsWith(Lower(name), ".jpg") || EndsWith(Lower(name), ".jpeg") || EndsWith(Lower(name), ".png")
  }

  /** The saved image's name: kept with a `.jpg`, `.jpeg` or `.png` extension in any case, otherwise given `.jpg`. */
  function ImageName(name: string): (r: string)
    ensures ImageExtension(r)
    ensures ImageExtension(name) ==> r == name
  {
    if ImageExtension(name) then name
    else
      var r := SplitExtRoot(name) + ".jpg";
      assert Lower(r)[|r| - 4..] == ".jpg";
      r
  }

  /** Naming the image again changes nothing. */
  lemma ImageNameIdempotent(name: string)
    ensures ImageName(ImageName(name)) == ImageName(name)
  {
  }

  /** How a box of class `cls` is drawn: colour `cls % 5`, name by class or `class_<cls>` past the list; an index below -5 raises `IndexError`. */
  function SrcDrawing(cls: int): (r: Result<Drawing>)
    ensures r.Err? <==> cls < -5
    ensures 0 <= cls < 5 ==> r == Ok(Drawing(SrcColours[cls], ClassNames[cls]))
    ensures cls >= 5 ==> r == Ok(Drawing(SrcColours[cls % 5], "class_" + ShowInt(cls)))
  {
    var colour := SrcColours[cls % |SrcColours|];
    if cls >= |ClassNames| then Ok(Drawing(colour, "class_" + ShowInt(cls)))
    else
      match PyAt(ClassNames, cls)
      case None => Err("IndexError")
      case Some(n) => Ok(Drawing(colour, n))
  }

  const SrcColours: seq<Colour> :=
    [Colour(31, 119, 180), Colour(44, 160, 44), Colour(255, 127, 14), Colour(148, 103, 189), Colour(140, 86, 75)]

  /** The label file's lines for the boxes, in order. */
  function SrcLines(boxes: seq<Quad>, labels: seq<real>, w: nat, h: nat): (r: seq<string>)
    requires w >= 1 && h >= 1
    ensures |r| == |boxes|
    ensures forall i :: 0 <= i < |boxes| ==> r[i] == Render(LineFor(boxes, labels, i, w, h))
  {
    seq(|boxes|, i requires 0 <= i < |boxes| => Render(LineFor(boxes, labels, i, w, h)))
  }

  /** Some box's class has no name: below -5. */
  predicate SrcUnnamed(boxes: seq<Quad>, labels: seq<real>)
  {
    exists i :: 0 <= i < |boxes| && ClassAt(labels, i) < -5
  }

  /** One turn of the loop over the boxes: the box's class and its label line. */
  method SrcLine(boxes: seq<Quad>, labels: seq<real>, i: nat, w: nat, h: nat) returns (cls: int, line: string)
    requires i < |boxes| && w >= 1 && h >= 1
    ensures cls == ClassAt(labels, i)
    ensures line == Render(LineFor(boxes, labels, i, w, h))
  {
    cls := if i < |labels| then Trunc(labels[i]) else 0;
    var p := ToPixels(boxes[i], w, h);
    line := Render(YoloLine(cls, p, w, h));
  }

  /**
   * `save_results_wbf` of `src/video/MODELS.py` on an image of `w` by `h`
   * pixels: one label line per box, then the label file and, when images
   * are saved, the image; drawing a box whose class has no name raises
   * `IndexError` before anything is written.
   */
  method SrcSaveResults(name: string, boxes: seq<Quad>, labels: seq<real>, w: nat, h: nat, saveImages: bool)
    returns (r: Result<Saved>)
    requires w >= 1 && h >= 1
    ensures r.Err? <==> saveImages && SrcUnnamed(boxes, labels)
    ensures r.Ok? ==> r.value == Saved(LabelFileName(name), LabelText(SrcLines(boxes, labels, w, h)),
                                       if saveImages then Some(ImageName(name)) else None)
  {
    ghost var all := SrcLines(boxes, labels, w, h);
    var lines: seq<string> := [];
    var i := 0;
    while i < |boxes|
      invariant i <= |boxes| && lines == all[..i]
      invariant saveImages ==> forall j :: 0 <= j < i ==> ClassAt(labels, j) >= -5
    {
      var cls, line := SrcLine(boxes, labels, i, w, h);
      assert all[..i + 1] == lines + [line];
      lines := lines + [line];
      if saveImages {
        var drawing := SrcDrawing(cls);
        if drawing.Err? {
          assert ClassAt(labels, i) < -5;
          return Err(drawing.error);
        }
      }
      i := i + 1;
    }
    assert lines == all;
    r := Ok(Saved(LabelFileName(name), LabelText(lines), if saveImages then Some(ImageName(name)) else None));
  }

  // ---------------------------------------------------------------- Video/MODELS.py

  /** The label of normalised corners: size is the difference, centre the first corner plus half the size. */
  function VideoLine(q: Quad, cls: real): LabelLine
  {
    LabelLine(Trunc(cls), q.a + (q.c - q.a) / 2.0, q.b + (q.d - q.b) / 2.0, q.c - q.a, q.d - q.b)
  }

  /** The label's centre and size give back the box's corners. */
  lemma VideoLineCorners(q: Quad, cls: real)
    ensures var l := VideoLine(q, cls);
            l.xc - l.bw / 2.0 == q.a && l.xc + l.bw / 2.0 == q.c && l.yc - l.bh / 2.0 == q.b && l.yc + l.bh / 2.0 == q.d
  {
  }

  /** The drawn rectangle: each corner times the image size, truncated. */
  function VideoDrawnCorners(q: Quad, w: nat, h: nat): (p: Pixels)
    ensures 0.0 <= q.a <= 1.0 ==> 0 <= p.x1 <= w
    ensures 0.0 <= q.b <= 1.0 ==> 0 <= p.y1 <= h
    ensures 0.0 <= q.c <= 1.0 ==> 0 <= p.x2 <= w
    ensures 0.0 <= q.d <= 1.0 ==> 0 <= p.y2 <= h
  {
    Pixels(Trunc(Scale(q.a, w)), Trunc(Scale(q.b, h)), Trunc(Scale(q.c, w)), Trunc(Scale(q.d, h)))
  }

  const VideoColours: seq<Colour> :=
    [Colour(200, 130, 0), Colour(75, 180, 60), Colour(75, 25, 230), Colour(48, 130, 245), Colour(180, 30, 145)]

  /** Colour and name indexed directly by the class: `IndexError` outside -5..4. */
  function VideoDrawing(cls: int): (r: Result<Drawing>)
    ensures r.Ok? <==> -5 <= cls < 5
    ensures 0 <= cls < 5 ==> r == Ok(Drawing(VideoColours[cls], ClassNames[cls]))
  {
    match (PyAt(VideoColours, cls), PyAt(ClassNames, cls))
    case (Some(c), Some(n)) => Ok(Drawing(c, n))
    case _ => Err("IndexError")
  }

  /** One line per pair of box and class, as far as the shorter list reaches. */
  function VideoLines(boxes: seq<Quad>, labels: seq<real>): (r: seq<string>)
    ensures |r| == Min(|boxes|, |labels|)
    ensures forall i :: 0 <= i < |r| ==> r[i] == Render(VideoLine(boxes[i], labels[i]))
  {
    var n := Min(|boxes|, |labels|);
    seq(n, i requires 0 <= i < n => Render(VideoLine(boxes[i], labels[i])))
  }

  /** Some paired class is outside -5..4. */
  predicate VideoUnnamed(boxes: seq<Quad>, labels: seq<real>)
  {
    exists i :: 0 <= i < Min(|boxes|, |labels|) && !(-5 <= Trunc(labels[i]) < 5)
  }

  /**
   * `save_results_wbf` of `Video/MODELS.py`: the lines joined by newlines
   * with no final newline, the image under its own name; a class outside
   * -5..4 raises `IndexError` only when images are drawn.
   */
  method VideoSaveResults(name: string, boxes: seq<Quad>, labels: seq<real>, w: nat, h: nat, saveImages: bool)
    returns (r: Result<Saved>)
    ensures r.Err? <==> saveImages && VideoUnnamed(boxes, labels)
    ensures r.Ok? ==> r.value == Saved(LabelFileName(name), Join(VideoLines(boxes, labels), "\n"),
                                       if saveImages then Some(name) else None)
  {
    var n := Min(|boxes|, |labels|);
    var lines: seq<string> := [];
    var i := 0;
    while i < n
      invariant i <= n && |lines| == i
      invariant forall j :: 0 <= j < i ==> lines[j] == Render(VideoLine(boxes[j], labels[j]))
      invariant saveImages ==> forall j :: 0 <= j < i ==> -5 <= Trunc(labels[j]) < 5
    {
      var cls := labels[i];
      var line := VideoLine(boxes[i], cls);
      lines := lines + [Render(line)];
      if saveImages {
        var corners := VideoDrawnCorners(boxes[i], w, h);
        var drawing := VideoDrawing(Trunc(cls));
        if drawing.Err? {
          assert !(-5 <= Trunc(labels[i]) < 5);
          return Err(drawing.error);
        }
      }
      i := i + 1;
    }
    assert lines == VideoLines(boxes, labels);
    r := Ok(Saved(LabelFileName(name), Join(lines, "\n"), if saveImages then Some(name) else None));
  }

  /** The two copies write the same lines differently: the `src` file has the final newline the `Video` file lacks. */
  lemma TextsDiffer(lines: seq<string>)
    requires lines != []
    ensures LabelText(lines) == Join(lines, "\n") + "\n"
    ensures !EndsWith(Join(lines, "\n"), "\n") <== lines[|lines| - 1] != [] && !EndsWith(lines[|lines| - 1], "\n")
  {
    JoinLast(lines);
  }

  /** A join ends with its last part. */
  lemma {:induction false} JoinLast(lines: seq<string>)
    requires lines != []
    ensures EndsWith(Join(lines, "\n"), lines[|lines| - 1])
    decreases |lines|
  {
    if |lines| > 1 {
      JoinLast(lines[1..]);
      var rest := Join(lines[1..], "\n");
      assert Join(lines, "\n") == (lines[0] + "\n") + rest;
    }
  }
}
