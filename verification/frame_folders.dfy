/**
 * `organizza_frames` of `src/video/VIDEO.py`: the extracted frame images
 * are listed, sorted by the number after `frame_` in their names, split
 * at the first frame at or after the start of the audio recording into
 * those moved to `backup_frames` and those kept, and the kept frames are
 * moved four at a time into `INTERVALLO_1`, `INTERVALLO_2`, and so on.
 */
module FrameFolders {
  import opened Base
  import opened Numeric
  import opened Text
  import opened Sorting
  import Processor

  // ---------------------------------------------------------------- get_frame_number

  /** Where `re.search(r'frame_(\d+)', name)` can match: `frame_` followed by a digit. */
  predicate MatchAt(name: string, k: nat)
  {
    k + 7 <= |name| && name[k..k + 6] == "frame_" && IsDigit(name[k + 6])
  }

  /** The length of the run of digits starting at `from`. */
  function DigitRun(s: string, from: nat): (n: nat)
    requires from <= |s|
    ensures from + n <= |s|
    ensures forall i :: from <= i < from + n ==> IsDigit(s[i])
    ensures from + n == |s| || !IsDigit(s[from + n])
    decreases |s| - from
  {
    if from == |s| || !IsDigit(s[from]) then 0 else 1 + DigitRun(s, from + 1)
  }

  /** The leftmost match at or after `from`, as the regular-expression search finds it. */
  function FirstMatch(name: string, from: nat): (r: Option<nat>)
    requires from <= |name|
    ensures r.Some? ==> from <= r.value && MatchAt(name, r.value)
    ensures forall k :: from <= k && (r.None? || k < r.value) ==> !MatchAt(name, k)
    decreases |name| - from
  {
    if from == |name| then None
    else if MatchAt(name, from) then Some(from)
    else FirstMatch(name, from + 1)
  }

  /** `get_frame_number`: the number after the leftmost `frame_` that a digit follows, or -1. */
  function FrameNumber(name: string): (r: int)
    ensures r >= -1
    ensures r == -1 <==> forall k :: 0 <= k < |name| ==> !MatchAt(name, k)
  {
    match FirstMatch(name, 0)
    case None => -1
    case Some(k) =>
      var n := DigitRun(name, k + 6);
      assert AllDigits(name[k + 6..k + 6 + n]);
      DigitsValue(name[k + 6..k + 6 + n])
  }

  /**
   * The number of the file the extractor writes for frame `n` into the
   * folder `folder`, `<folder>_frame_<n>.png`, is `n` again, as long as the
   * folder's own name holds no `frame_` followed by a digit.
   */
  lemma FrameNumberOfName(folder: string, n: nat)
    requires forall k :: 0 <= k < |folder| ==> !MatchAt(folder, k)
    ensures FrameNumber(folder + "_frame_" + ShowNat(n) + ".png") == n
  {
    var digits := ShowNat(n);
    var name := folder + "_frame_" + digits + ".png";
    var m := |folder| + 1;
    assert name[m..m + 6] == "frame_";
    assert name[m + 6..m + 6 + |digits|] == digits;
    assert MatchAt(name, m);
    forall k | 0 <= k < m
      ensures !MatchAt(name, k)
    {
      if k + 7 <= |folder| {
        assert name[k..k + 7] == folder[k..k + 7];
        assert !MatchAt(folder, k);
      } else if k + 6 == |folder| {
        assert name[k + 6] == '_';
      } else if k + 5 == |folder| {
        assert name[k + 6] == 'f';
      } else if k < |folder| {
        assert name[|folder|] == '_' && "frame_"[|folder| - k] != '_';
        assert name[k..k + 6][|folder| - k] == '_';
      } else {
        assert name[k] == '_';
      }
    }
    assert FirstMatch(name, 0) == Some(m) by {
      FirstMatchIs(name, 0, m);
    }
    assert DigitRun(name, m + 6) == |digits| by {
      DigitRunIs(name, m + 6, |digits|);
    }
    DigitsValueShowNat(n);
  }

  /** The search from `from` finds `m` when `m` is the first match at or after `from`. */
  lemma {:induction false} FirstMatchIs(name: string, from: nat, m: nat)
    requires from <= m < |name| && MatchAt(name, m)
    requires forall k :: from <= k < m ==> !MatchAt(name, k)
    ensures FirstMatch(name, from) == Some(m)
    decreases m - from
  {
    if from < m {
      FirstMatchIs(name, from + 1, m);
    }
  }

  /** The digit run from `from` has length `n` when `n` digits follow and a non-digit ends them. */
  lemma {:induction false} DigitRunIs(s: string, from: nat, n: nat)
    requires from + n < |s| && !IsDigit(s[from + n])
    requires forall i :: from <= i < from + n ==> IsDigit(s[i])
    ensures DigitRun(s, from) == n
    decreases n
  {
    if n > 0 {
      DigitRunIs(s, from + 1, n - 1);
    }
  }

  /** A name without `frame_` and a digit has number -1. */
  lemma NoNumber(name: string)
    requires forall k :: 0 <= k < |name| ==> !MatchAt(name, k)
    ensures FrameNumber(name) == -1
  {
  }

  // ---------------------------------------------------------------- listing

  /**
   * The listing filter as written: `f.lower().endswith('.png') or
   * (f.lower().endswith('.jpg') and re.search(...))`, since `and` binds
   * tighter than `or`; a `.png` name needs no frame number.
   */
  predicate Listed(name: string)
  {
    EndsWith(Lower(name), ".png") || (EndsWith(Lower(name), ".jpg") && FirstMatch(name, 0).Some?)
  }

  /** The listed names, in listing order. */
  function ListedFiles(listing: seq<string>): (r: seq<string>)
    ensures forall f :: f in r <==> f in listing && Listed(f)
    ensures multiset(r) <= multiset(listing)
  {
    if listing == [] then []
    else
      var rest := ListedFiles(listing[1..]);
      assert listing == [listing[0]] + listing[1..];
      if Listed(listing[0]) then [listing[0]] + rest else rest
  }

  /**
   * A `.png` image whose name has no frame number is listed, and is
   * numbered -1; a `.jpg` one is not listed.
   */
  lemma PngWithoutNumber(name: string)
    requires forall k :: 0 <= k < |name| ==> !MatchAt(name, k)
    ensures EndsWith(Lower(name), ".png") ==> Listed(name) && FrameNumber(name) == -1
    ensures EndsWith(Lower(name), ".jpg") ==> !Listed(name)
  {
    assert FirstMatch(name, 0).None?;
    if EndsWith(Lower(name), ".jpg") {
      assert Lower(name)[|name| - 4..] == ".jpg";
      assert Lower(name)[|name| - 1] == 'g';
    }
  }

  // ---------------------------------------------------------------- the split

  /** The elements whose key is at least `t`, in order. */
  function From(s: seq<string>, key: string -> int, t: int): (r: seq<string>)
    ensures forall f :: f in r <==> f in s && key(f) >= t
  {
    if s == [] then []
    else
      assert s == [s[0]] + s[1..];
      (if key(s[0]) >= t then [s[0]] else []) + From(s[1..], key, t)
  }

  /** The elements whose key is below `t`, in order. */
  function Before(s: seq<string>, key: string -> int, t: int): (r: seq<string>)
    ensures forall f :: f in r <==> f in s && key(f) < t
  {
    if s == [] then []
    else
      assert s == [s[0]] + s[1..];
      (if key(s[0]) < t then [s[0]] else []) + Before(s[1..], key, t)
  }

  /** Every element goes to exactly one side of the split. */
  lemma {:induction false} SplitPartition(s: seq<string>, key: string -> int, t: int)
    ensures multiset(From(s, key, t)) + multiset(Before(s, key, t)) == multiset(s)
  {
    if s != [] {
      SplitPartition(s[1..], key, t);
      assert s == [s[0]] + s[1..];
    }
  }

  /** Taking part of a sorted list keeps it sorted. */
  lemma {:induction false} FromSorted(s: seq<string>, key: string -> int, t: int)
    requires SortedBy(s, key)
    ensures SortedBy(From(s, key, t), key)
  {
    if s != [] {
      SortedTail(s, key);
      FromSorted(s[1..], key, t);
      var rest := From(s[1..], key, t);
      assert forall y :: y in rest ==> y in s;
      if key(s[0]) >= t {
        ConsSorted(s[0], rest, key);
      }
    }
  }

  /** Two thresholds that no key lies between split alike. */
  lemma {:induction false} SameSplit(s: seq<string>, key: string -> int, t: int, u: int)
    requires forall f :: f in s ==> (key(f) >= t <==> key(f) >= u)
    ensures From(s, key, t) == From(s, key, u) && Before(s, key, t) == Before(s, key, u)
  {
    if s != [] {
      assert s[0] in s;
      assert forall f :: f in s[1..] ==> f in s;
      SameSplit(s[1..], key, t, u);
    }
  }

  /** The key of the first element keyed at least `t`, if any. */
  function FirstFrom(s: seq<string>, key: string -> int, t: int): (r: Option<int>)
    ensures r.Some? <==> exists f :: f in s && key(f) >= t
    ensures r.Some? ==> r.value >= t && exists f :: f in s && key(f) == r.value
  {
    if s == [] then None
    else if key(s[0]) >= t then Some(key(s[0]))
    else
      assert forall f :: f in s <==> f == s[0] || f in s[1..] by {
        assert s == [s[0]] + s[1..];
      }
      FirstFrom(s[1..], key, t)
  }

  /** In a sorted list the first key at least `t` is the smallest such. */
  lemma {:induction false} FirstFromLeast(s: seq<string>, key: string -> int, t: int)
    requires SortedBy(s, key) && FirstFrom(s, key, t).Some?
    ensures forall f :: f in s && key(f) >= t ==> key(f) >= FirstFrom(s, key, t).value
  {
    SortedTail(s, key);
    if key(s[0]) < t {
      var tail := s[1..];
      var v := FirstFrom(tail, key, t);
      assert FirstFrom(s, key, t) == v;
      FirstFromLeast(tail, key, t);
      forall f | f in s && key(f) >= t ensures key(f) >= v.value {
        var i :| 0 <= i < |s| && s[i] == f;
        assert tail[i - 1] == f;
      }
    }
  }

  // ---------------------------------------------------------------- the groups of four

  /** The group `j`: names `4j` up to `4j + 4`, fewer in the last one. */
  function Group<T>(s: seq<T>, j: nat): seq<T>
    requires 4 * j < |s|
  {
    s[4 * j..Min(4 * j + 4, |s|)]
  }

  /** The groups, one per started four. */
  function Groups<T>(s: seq<T>): (g: seq<seq<T>>)
    ensures |g| == (|s| + 3) / 4
  {
    seq((|s| + 3) / 4, j requires 0 <= j < (|s| + 3) / 4 => Group(s, j))
  }

  /** Every group has four names but the last, which has one to four; in order they are the whole list. */
  lemma GroupsShape<T>(s: seq<T>)
    ensures var g := Groups(s);
            (forall j :: 0 <= j < |g| - 1 ==> |g[j]| == 4)
            && (g != [] ==> 1 <= |g[|g| - 1]| <= 4)
            && Flatten(g) == s
  {
    GroupsFlatten(s);
  }

  /** In order, the groups are the whole list. */
  lemma GroupsFlatten<T>(s: seq<T>)
    ensures Flatten(Groups(s)) == s
  {
    var g := Groups(s);
    FlattenGroups(s, |g|);
    assert g[..|g|] == g;
  }

  lemma {:induction false} FlattenGroups<T>(s: seq<T>, k: nat)
    requires k <= (|s| + 3) / 4
    ensures Flatten(Groups(s)[..k]) == s[..Min(4 * k, |s|)]
  {
    if k > 0 {
      var g := Groups(s);
      FlattenGroups(s, k - 1);
      assert g[..k][..k - 1] == g[..k - 1];
      assert g[..k][k - 1] == Group(s, k - 1);
      assert s[..Min(4 * k, |s|)] == s[..4 * (k - 1)] + s[4 * (k - 1)..Min(4 * k, |s|)];
    }
  }

  /** The loop `for i in range(0, len(keep), 4)` that fills one folder per turn. */
  method GroupInFours<T>(keep: seq<T>) returns (groups: seq<seq<T>>)
    ensures groups == Groups(keep)
  {
    groups := [];
    var i := 0;
    while i < |keep|
      invariant i == 4 * |groups| && i <= |keep| + 3
      invariant forall j :: 0 <= j < |groups| ==> 4 * j < |keep| && groups[j] == Group(keep, j)
      decreases |keep| - i
    {
      groups := groups + [keep[i..Min(i + 4, |keep|)]];
      i := i + 4;
    }
  }

  /** The folder of group `j`: `INTERVALLO_{j + 1}`. */
  function FolderName(j: nat): string
  {
    "INTERVALLO_" + ShowNat(j + 1)
  }

  /** The interval table written for the folder of group `j` is read back as interval `j + 1`. */
  lemma FolderKey(j: nat)
    ensures Processor.IntervalKey(FolderName(j) + ".csv") == Some(j + 1)
  {
    assert FolderName(j) + ".csv" == Processor.IntervalFileName(j + 1);
    Processor.IntervalKeyOfName(j + 1);
  }

  // ---------------------------------------------------------------- organizza_frames

  /** Where the frames end up: moved to `backup_frames`, or grouped into interval folders. */
  datatype Layout = Layout(backup: seq<string>, groups: seq<seq<string>>)

  /**
   * `organizza_frames` on a folder listing, with `start` the frame index of
   * the recording's start: no listed frame at or after `start` raises
   * `ValueError`; otherwise the frames before the first available one go to
   * backup and the rest are grouped.
   */
  function Organize(listing: seq<string>, start: int): Result<Layout>
  {
    var frames := Frames(listing);
    match FirstFrom(frames, FrameNumber, start)
    case None => Err("ValueError")
    case Some(available) =>
      Ok(Layout(Before(frames, FrameNumber, available), Groups(SortBy(From(frames, FrameNumber, available), FrameNumber))))
  }

  /** The method of `src/video/VIDEO.py`: the split, then the loop that fills the folders four at a time. */
  method OrganizeFrames(listing: seq<string>, start: int) returns (r: Result<Layout>)
    ensures r == Organize(listing, start)
  {
    var frames := Frames(listing);
    var first := FirstFrom(frames, FrameNumber, start);
    if first.None? {
      return Err("ValueError");
    }
    var available := first.value;
    var keep := From(frames, FrameNumber, available);
    var backup := Before(frames, FrameNumber, available);
    keep := SortBy(keep, FrameNumber);
    var groups := GroupInFours(keep);
    r := Ok(Layout(backup, groups));
  }

  /** The frames `organizza_frames` works on: the listed names sorted by number. */
  function Frames(listing: seq<string>): (r: seq<string>)
    ensures forall f :: f in r <==> f in ListedFiles(listing)
    ensures multiset(r) == multiset(ListedFiles(listing))
    ensures SortedBy(r, FrameNumber)
  {
    var r := SortBy(ListedFiles(listing), FrameNumber);
    assert forall f :: f in r <==> f in multiset(r);
    r
  }

  /** An error exactly when no listed frame is numbered `start` or later. */
  lemma OrganizeFails(listing: seq<string>, start: int)
    ensures Organize(listing, start).Err? <==> forall f :: f in ListedFiles(listing) ==> FrameNumber(f) < start
  {
    var frames := Frames(listing);
    assert Organize(listing, start).Err? <==> FirstFrom(frames, FrameNumber, start).None?;
  }

  /**
   * The split is at `start` itself: the backup holds the listed frames
   * numbered below `start`, the groups hold the others, in frame order.
   */
  lemma OrganizeSides(listing: seq<string>, start: int)
    requires Organize(listing, start).Ok?
    ensures var layout := Organize(listing, start).value;
            (forall f :: f in layout.backup <==> f in ListedFiles(listing) && FrameNumber(f) < start)
            && (forall f :: f in Flatten(layout.groups) <==> f in ListedFiles(listing) && FrameNumber(f) >= start)
            && SortedBy(Flatten(layout.groups), FrameNumber)
  {
    var frames := Frames(listing);
    var available := FirstFrom(frames, FrameNumber, start).value;
    FirstFromLeast(frames, FrameNumber, start);
    SameSplit(frames, FrameNumber, available, start);
    var keep := From(frames, FrameNumber, available);
    FromSorted(frames, FrameNumber, available);
    SortSorted(keep, FrameNumber);
    GroupsShape(keep);
    assert Organize(listing, start).value == Layout(Before(frames, FrameNumber, start), Groups(keep));
  }

  /** Backup and groups together are the listed frames, each once. */
  lemma OrganizePartition(listing: seq<string>, start: int)
    requires Organize(listing, start).Ok?
    ensures var layout := Organize(listing, start).value;
            multiset(layout.backup) + multiset(Flatten(layout.groups)) == multiset(ListedFiles(listing))
  {
    var frames := Frames(listing);
    var available := FirstFrom(frames, FrameNumber, start).value;
    var keep := From(frames, FrameNumber, available);
    var backup := Before(frames, FrameNumber, available);
    FromSorted(frames, FrameNumber, available);
    SortSorted(keep, FrameNumber);
    assert Organize(listing, start).value == Layout(backup, Groups(keep));
    GroupsFlatten(keep);
    SplitPartition(frames, FrameNumber, available);
    assert multiset(keep) + multiset(backup) == multiset(ListedFiles(listing));
  }

  /** A listed `.png` without a frame number always lands in the backup. */
  lemma UnnumberedPngBackedUp(listing: seq<string>, start: nat, name: string)
    requires name in listing && EndsWith(Lower(name), ".png")
    requires forall k :: 0 <= k < |name| ==> !MatchAt(name, k)
    requires Organize(listing, start).Ok?
    ensures name in Organize(listing, start).value.backup
  {
    PngWithoutNumber(name);
    OrganizeSides(listing, start);
  }
}
