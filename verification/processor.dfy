/**
 * `AmmaloramentiProcessor` of `src/video/PROCESSOR.py` and
 * `Video/PROCESSOR.py`: the index of one interval from its damage table
 * and acoustic class (`process_intervallo`), and the merge of all interval
 * results into one output row per GPS interval (`run`).
 *
 * The two copies share `run` but differ in `process_intervallo`; `Copy`
 * selects which one a run uses. The interval files arrive as a listing of
 * names with their parsed tables; the worker pool becomes a sequential
 * pass over the work items in submission order.
 */
module Processor {
  import opened Base
  import opened Text
  import opened Damage
  import opened RoadIndex

  /** Which `PROCESSOR.py`: `src/video/` or `Video/`. */
  datatype Copy = Src | Video

  /** A successful `process_intervallo`: the column sums and `indice_finale`. */
  datatype Summary = Summary(totals: Counts, index: int)

  // ---------------------------------------------------------------- process_intervallo

  /** `cls_eff`: one class lower when a manhole lies on the wheel paths, unless the class is -1. */
  function EffectiveClass(c: AcousticClass, manhole: Group): (e: AcousticClass)
    ensures manhole.sxBoth <= 0 || c == Class(-1) ==> e == c
    ensures c == Missing ==> e == Missing
    ensures c.Class? && c != Class(-1) && manhole.sxBoth > 0 ==> e == Class(c.value - 1)
  {
    if c != Class(-1) && manhole.sxBoth > 0 then
      match c
      case Class(v) => Class(v - 1)
      case Missing => Missing
    else c
  }

  /** A class that `process_intervallo` compares as negative (NaN is not). */
  predicate Negative(c: AcousticClass)
  {
    c.Class? && c.value < 0
  }

  /**
   * `process_intervallo` of `src/video/PROCESSOR.py`: the column sums of
   * the interval and its index, from the whole-table rule when the
   * effective class is negative and from the per-class rule otherwise.
   */
  function ProcessSrc(table: seq<Counts>, c: AcousticClass): (r: Result<Summary>)
    ensures r.Ok?
    ensures r.value.totals == SumColumns(table)
    ensures 0 <= r.value.index <= 3
    ensures c == Class(-1) ==> r.value.index == TableIndex(table)
    ensures c == Missing ==> r.value.index == 0
  {
    var s := SumColumns(table);
    var e := EffectiveClass(c, ManholeGroup(s));
    var index := if Negative(e) then TableIndex(table) else PerRow(e, PotholeGroup(s), CrackGroup(s));
    Ok(Summary(s, index))
  }

  /**
   * The index of `src/video/PROCESSOR.py` by class: classes below 0, and
   * class 0 with a manhole on the wheel paths, use the whole-table rule;
   * other classes use the per-class rule one class lower when a manhole
   * lies on the wheel paths.
   */
  lemma ProcessSrcClasses(table: seq<Counts>, v: int)
    ensures var s := SumColumns(table);
            var manhole := ManholeGroup(s).sxBoth > 0;
            ProcessSrc(table, Class(v)).value.index ==
              if v < 0 || (v == 0 && manhole) then TableIndex(table)
              else PerRow(Class(if manhole then v - 1 else v), PotholeGroup(s), CrackGroup(s))
  {
  }

  /**
   * `process_intervallo` of `Video/PROCESSOR.py`. Class -1 leaves `sum_df`
   * unassigned; with no manhole on the wheel paths `indice` is never
   * assigned; a non-negative effective class calls a method the class does
   * not have. Each of these raises and the call returns the error entry.
   */
  function ProcessVideo(table: seq<Counts>, c: AcousticClass): (r: Result<Summary>)
    ensures r.Ok? ==> r.value.totals == SumColumns(table) && 0 <= r.value.index <= 3
  {
    if c == Class(-1) then Err("UnboundLocalError")
    else
      var s := SumColumns(table);
      if ManholeGroup(s).sxBoth > 0 then
        var e := EffectiveClass(c, ManholeGroup(s));
        if Negative(e) then
          match FirstRowIndex(table)
          case Err(x) => Err(x)
          case Ok(i) => Ok(Summary(s, i))
        else Err("AttributeError")
      else Err("UnboundLocalError")
  }

  /**
   * `Video/PROCESSOR.py` produces a result only for a class of at most 0
   * other than -1 (in practice class 0) with a manhole on the wheel paths,
   * and then the index comes from the first frame alone.
   */
  lemma VideoProcessFails(table: seq<Counts>, c: AcousticClass)
    ensures ProcessVideo(table, c).Ok? <==>
              c.Class? && c.value != -1 && c.value <= 0 && ManholeGroup(SumColumns(table)).sxBoth > 0
    ensures ProcessVideo(table, c).Ok? ==>
              table != [] && ProcessVideo(table, c).value.index == IndexVideo(Potholes(table[0]), Cracks(table[0]))
  {
    var s := SumColumns(table);
    if table == [] {
      assert s == Zero;
    }
    var r := ProcessVideo(table, c);
    if r.Ok? {
      assert c != Class(-1) && ManholeGroup(s).sxBoth > 0;
      var e := EffectiveClass(c, ManholeGroup(s));
      assert Negative(e) && r == Ok(Summary(s, FirstRowIndex(table).value));
    }
  }

  /** The per-copy `process_intervallo`. */
  function Process(copy: Copy, table: seq<Counts>, c: AcousticClass): Result<Summary>
  {
    match copy
    case Src => ProcessSrc(table, c)
    case Video => ProcessVideo(table, c)
  }

  // ---------------------------------------------------------------- interval files

  /**
   * The number in an interval file name, as `INTERVALLO_(\d+)\.csv$`
   * matched from the start with case ignored reads it: `$` also matches
   * before one final newline, so that newline is set aside first.  `None`
   * when the name does not match.
   */
  function IntervalKey(name: string): (k: Option<nat>)
    ensures k.Some? ==> var b := BeforeFinalNewline(name); |b| >= 16 && AllDigits(b[11..|b| - 4])
  {
    var b := BeforeFinalNewline(name);
    if |b| >= 16 && Lower(b[..11]) == "intervallo_" && Lower(b[|b| - 4..]) == ".csv"
       && AllDigits(b[11..|b| - 4])
    then Some(DigitsValue(b[11..|b| - 4]))
    else None
  }

  /** `name` without its last character when that is a newline. */
  function BeforeFinalNewline(name: string): (b: string)
    ensures name == b || name == b + "\n"
  {
    if name != [] && name[|name| - 1] == '\n' then name[..|name| - 1] else name
  }

  /** The name of the `n`-th interval file. */
  function IntervalFileName(n: nat): string
  {
    "INTERVALLO_" + ShowNat(n) + ".csv"
  }

  /** Every interval file name reads back as its own number. */
  lemma IntervalKeyOfName(n: nat)
    ensures IntervalKey(IntervalFileName(n)) == Some(n)
  {
    var name := IntervalFileName(n);
    assert name[|name| - 1] == 'v';
    assert BeforeFinalNewline(name) == name;
    assert name[..11] == "INTERVALLO_";
    assert name[|name| - 4..] == ".csv";
    assert name[11..|name| - 4] == ShowNat(n);
    DigitsValueShowNat(n);
  }

  /** One newline after `.csv` still reads as the same number, as `$` allows. */
  lemma IntervalKeyFinalNewline(n: nat)
    ensures IntervalKey(IntervalFileName(n) + "\n") == Some(n)
  {
    var name := IntervalFileName(n);
    assert (name + "\n")[..|name|] == name;
    IntervalKeyOfName(n);
  }

  /**
   * Anything else after `.csv` (more than one final newline, another
   * extension, `.csv` twice) leaves a non-digit between the prefix and the
   * last four characters, so the name is not an interval file.
   */
  lemma IntervalKeySuffix(n: nat, rest: string)
    requires rest != [] && rest != "\n"
    ensures IntervalKey(IntervalFileName(n) + rest) == None
  {
    var name := IntervalFileName(n) + rest;
    var b := BeforeFinalNewline(name);
    var dot := 11 + |ShowNat(n)|;
    assert name[dot] == '.';
    assert |b| >= |name| - 1;
    if |b| == |name| - 1 {
      assert |rest| >= 2;
    }
    assert b[dot] == '.';
    assert 11 <= dot < |b| - 4;
    assert b[11..|b| - 4][dot - 11] == '.';
  }

  // ---------------------------------------------------------------- run

  /** A row of the GPS interval table: its other columns, carried through, and its acoustic class. */
  datatype GpsRow = GpsRow(columns: seq<string>, cls: AcousticClass)

  /** A file of the interval folder: its name and its table of per-frame counters. */
  datatype IntervalFile = IntervalFile(name: string, table: seq<Counts>)

  /** A submitted `process_intervallo` call: interval number, table, class from the GPS row. */
  datatype Task = Task(id: nat, table: seq<Counts>, cls: AcousticClass)

  /** An output row: `id_intervallo`, the GPS columns, the twenty column sums, `indice_finale`. */
  datatype Row = Row(id: nat, gps: GpsRow, totals: Counts, index: int)

  /** The work item of one listed file, if its name matches and its number has a GPS row. */
  function TaskOf(f: IntervalFile, gps: seq<GpsRow>): (t: Option<Task>)
    ensures t.Some? ==> t.value.id < |gps| && IntervalKey(f.name) == Some(t.value.id)
  {
    match IntervalKey(f.name)
    case None => None
    case Some(x) => if x < |gps| then Some(Task(x, f.table, gps[x].cls)) else None
  }

  /** The work items of a listing, in listing order. */
  function Tasks(files: seq<IntervalFile>, gps: seq<GpsRow>): (ts: seq<Task>)
    ensures |ts| <= |files|
    ensures forall t :: t in ts ==> t.id < |gps| && t.cls == gps[t.id].cls
  {
    if files == [] then []
    else
      var front := Tasks(files[..|files| - 1], gps);
      match TaskOf(files[|files| - 1], gps)
      case None => front
      case Some(t) => front + [t]
  }

  /** `results_dict` after the given tasks: a later task for the same interval replaces an earlier one. */
  function Outcomes(copy: Copy, tasks: seq<Task>): (m: map<nat, Result<Summary>>)
    ensures forall x :: x in m <==> exists t :: t in tasks && t.id == x
  {
    if tasks == [] then map[]
    else
      var t := tasks[|tasks| - 1];
      var front := Outcomes(copy, tasks[..|tasks| - 1]);
      assert forall u :: u in tasks <==> u in tasks[..|tasks| - 1] || u == t by {
        assert tasks == tasks[..|tasks| - 1] + [t];
      }
      front[t.id := Process(copy, t.table, t.cls)]
  }

  /** With the `src/video/` copy every result is a success with an index in 0..3. */
  lemma {:induction false} OutcomesSrc(tasks: seq<Task>)
    ensures forall x :: x in Outcomes(Src, tasks) ==>
              Outcomes(Src, tasks)[x].Ok? && 0 <= Outcomes(Src, tasks)[x].value.index <= 3
    decreases |tasks|
  {
    if tasks != [] {
      OutcomesSrc(tasks[..|tasks| - 1]);
    }
  }

  /** With the `Video/` copy, an interval whose class is not 0 or below -1 never has a successful result. */
  lemma {:induction false} OutcomesVideo(tasks: seq<Task>, x: nat)
    requires x in Outcomes(Video, tasks)
    requires forall t :: t in tasks && t.id == x ==> !(t.cls.Class? && t.cls.value != -1 && t.cls.value <= 0)
    ensures Outcomes(Video, tasks)[x].Err?
    decreases |tasks|
  {
    var t := tasks[|tasks| - 1];
    if t.id == x {
      VideoProcessFails(t.table, t.cls);
    } else {
      assert forall u :: u in tasks[..|tasks| - 1] ==> u in tasks;
      OutcomesVideo(tasks[..|tasks| - 1], x);
    }
  }

  /** The output row of GPS row `i`: its result if it succeeded, zeros in every damage column otherwise. */
  function MergedRow(i: nat, g: GpsRow, results: map<nat, Result<Summary>>): (r: Row)
    ensures r.id == i && r.gps == g
    ensures !(i in results && results[i].Ok?) ==> r.totals == Zero && r.index == 0
    ensures i in results && results[i].Ok? ==> r.totals == results[i].value.totals && r.index == results[i].value.index
  {
    if i in results && results[i].Ok? then Row(i, g, results[i].value.totals, results[i].value.index)
    else Row(i, g, Zero, 0)
  }

  /** The spec of `run`: the files' tasks processed, then one merged row per GPS row. */
  function RunSpec(copy: Copy, gps: seq<GpsRow>, files: seq<IntervalFile>): seq<Row>
  {
    var results := Outcomes(copy, Tasks(files, gps));
    seq(|gps|, i requires 0 <= i < |gps| => MergedRow(i, gps[i], results))
  }

  /**
   * The output has exactly one row per GPS row, sorted by `id_intervallo`,
   * each carrying its GPS columns.
   */
  lemma RunRows(copy: Copy, gps: seq<GpsRow>, files: seq<IntervalFile>)
    ensures |RunSpec(copy, gps, files)| == |gps|
    ensures forall i :: 0 <= i < |gps| ==> RunSpec(copy, gps, files)[i].id == i
    ensures forall i :: 0 <= i < |gps| ==> RunSpec(copy, gps, files)[i].gps == gps[i]
    ensures forall i, j :: 0 <= i < j < |gps| ==> RunSpec(copy, gps, files)[i].id < RunSpec(copy, gps, files)[j].id
  {
  }

  /** A GPS row with no matching interval file gets zeros and index 0. */
  lemma RunMissing(copy: Copy, gps: seq<GpsRow>, files: seq<IntervalFile>, i: nat)
    requires i < |gps|
    requires forall f :: f in files ==> IntervalKey(f.name) != Some(i)
    ensures RunSpec(copy, gps, files)[i].totals == Zero
    ensures RunSpec(copy, gps, files)[i].index == 0
  {
    var tasks := Tasks(files, gps);
    if i in Outcomes(copy, tasks) {
      var t :| t in tasks && t.id == i;
      TaskFromFile(files, gps, t);
    }
  }

  /** Every task comes from a listed file whose name carries its interval number. */
  lemma {:induction false} TaskFromFile(files: seq<IntervalFile>, gps: seq<GpsRow>, t: Task)
    requires t in Tasks(files, gps)
    ensures exists f :: f in files && IntervalKey(f.name) == Some(t.id)
    decreases |files|
  {
    var front := files[..|files| - 1];
    var last := files[|files| - 1];
    if t in Tasks(front, gps) {
      TaskFromFile(front, gps, t);
      var f :| f in front && IntervalKey(f.name) == Some(t.id);
      assert f in files;
    } else {
      assert TaskOf(last, gps) == Some(t);
      assert last in files;
    }
  }

  /** With the `src/video/` copy every output index is in 0..3. */
  lemma RunSrcIndex(gps: seq<GpsRow>, files: seq<IntervalFile>, i: nat)
    requires i < |gps|
    ensures 0 <= RunSpec(Src, gps, files)[i].index <= 3
  {
    OutcomesSrc(Tasks(files, gps));
  }

  /**
   * With the `Video/` copy a GPS row whose class is -1, positive or
   * missing always gets zeros and index 0, whatever its interval file holds.
   */
  lemma RunVideoZeroes(gps: seq<GpsRow>, files: seq<IntervalFile>, i: nat)
    requires i < |gps|
    requires !(gps[i].cls.Class? && gps[i].cls.value != -1 && gps[i].cls.value <= 0)
    ensures RunSpec(Video, gps, files)[i].totals == Zero
    ensures RunSpec(Video, gps, files)[i].index == 0
  {
    var tasks := Tasks(files, gps);
    if i in Outcomes(Video, tasks) {
      OutcomesVideo(tasks, i);
    }
  }

  /** `run`: collect the work items, process them, merge one row per GPS row. */
  method Run(copy: Copy, gps: seq<GpsRow>, files: seq<IntervalFile>) returns (rows: seq<Row>)
    ensures rows == RunSpec(copy, gps, files)
  {
    var tasks := CollectTasks(files, gps);
    var results := ProcessAll(copy, tasks);
    rows := Merge(gps, results);
  }

  /** The listing loop of `run`: a task for each matching name whose number has a GPS row. */
  method CollectTasks(files: seq<IntervalFile>, gps: seq<GpsRow>) returns (tasks: seq<Task>)
    ensures tasks == Tasks(files, gps)
  {
    tasks := [];
    var i := 0;
    while i < |files|
      invariant i <= |files|
      invariant tasks == Tasks(files[..i], gps)
    {
      assert files[..i + 1][..i] == files[..i];
      match IntervalKey(files[i].name) {
        case None =>
        case Some(x) =>
          if x < |gps| {
            tasks := tasks + [Task(x, files[i].table, gps[x].cls)];
          }
      }
      i := i + 1;
    }
    assert files[..i] == files;
  }

  /** The worker pool of `run`, in submission order: each result stored under its interval number. */
  method ProcessAll(copy: Copy, tasks: seq<Task>) returns (results: map<nat, Result<Summary>>)
    ensures results == Outcomes(copy, tasks)
  {
    results := map[];
    var j := 0;
    while j < |tasks|
      invariant j <= |tasks|
      invariant results == Outcomes(copy, tasks[..j])
    {
      assert tasks[..j + 1][..j] == tasks[..j];
      var t := tasks[j];
      assert Outcomes(copy, tasks[..j + 1]) == Outcomes(copy, tasks[..j])[t.id := Process(copy, t.table, t.cls)];
      results := results[t.id := Process(copy, t.table, t.cls)];
      j := j + 1;
    }
    assert tasks[..j] == tasks;
  }

  /** The merge loop of `run`: one row per GPS row, in GPS order. */
  method Merge(gps: seq<GpsRow>, results: map<nat, Result<Summary>>) returns (rows: seq<Row>)
    ensures |rows| == |gps|
    ensures forall m :: 0 <= m < |gps| ==> rows[m] == MergedRow(m, gps[m], results)
  {
    rows := [];
    var k := 0;
    while k < |gps|
      invariant k <= |gps|
      invariant |rows| == k
      invariant forall m :: 0 <= m < k ==> rows[m] == MergedRow(m, gps[m], results)
    {
      var row: Row;
      if k in results && results[k].Ok? {
        row := Row(k, gps[k], results[k].value.totals, results[k].value.index);
      } else {
        row := Row(k, gps[k], Zero, 0);
      }
      rows := rows + [row];
      k := k + 1;
    }
  }
}
