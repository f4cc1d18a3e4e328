/**
 * The loops around the acoustic helpers.
 *
 * The batch script of `src/audio/Classificazione_tcn.py` lists and orders
 * its files, turns the GPS start and end times into seconds from the
 * first start, loads every TCN file into one sample sequence, and
 * measures each interval whose end lies before the last sample.
 *
 * The `Classificazione_Audio` class of `Audio/Classificazione_tcn.py`
 * does the same incrementally: a monitor thread appends each new TCN
 * file as it appears, while `analyze` passes over the rows again and
 * again, measuring those whose samples have arrived.  Both threads are
 * modelled as one object whose `Poll` (one round of the monitor) and
 * `Pass` (one round of `analyze`) may be called in any order.
 */
module AcousticRuns {
  import opened Base
  import opened Text
  import opened Sorting
  import opened Acoustic
  import Numeric

  // ---------------------------------------------------------------- listings and order

  /**
   * The TCN listing filter with the files already known removed: the
   * `.txt` names holding no `final_data` that are not in `known`, in
   * listing order.  With nothing known it is the script's listing.
   */
  function Fresh(listing: seq<string>, known: set<string>): (r: seq<string>)
    ensures forall f :: f in r <==> f in listing && TcnListed(f) && f !in known
  {
    if listing == [] then []
    else
      var init, f := listing[..|listing| - 1], listing[|listing| - 1];
      assert listing == init + [f];
      var front := Fresh(init, known);
      if TcnListed(f) && f !in known then front + [f] else front
  }

  /** A listing whose every `.txt` file is known holds nothing new. */
  lemma {:induction false} FreshNone(listing: seq<string>, known: set<string>)
    requires forall f :: f in listing && TcnListed(f) ==> f in known
    ensures Fresh(listing, known) == []
    decreases |listing|
  {
    if listing != [] {
      var init := listing[..|listing| - 1];
      assert forall f :: f in init ==> f in listing;
      FreshNone(init, known);
      assert listing[|listing| - 1] in listing;
    }
  }

  /** The GPS listing filter: names ending in `csv`, in listing order. */
  function CsvFiles(listing: seq<string>): (r: seq<string>)
    ensures forall f :: f in r <==> f in listing && EndsWith(f, "csv")
  {
    if listing == [] then []
    else
      var init, f := listing[..|listing| - 1], listing[|listing| - 1];
      assert listing == init + [f];
      var front := CsvFiles(init);
      if EndsWith(f, "csv") then front + [f] else front
  }

  /** A file key that raises read as 0; only used once every key is known to exist. */
  function KeyOrZero(key: string -> Option<int>): string -> int
  {
    f => match key(f) case Some(k) => k case None => 0
  }

  /**
   * `files.sort(key=key)`.  Python computes the key of every element
   * before sorting, so one name whose key raises makes the sort raise
   * `ValueError`, even in a list of one.
   */
  function Ordered(files: seq<string>, key: string -> Option<int>): (r: Result<seq<string>>)
    ensures r.Err? <==> exists f :: f in files && key(f).None?
    ensures r.Ok? ==> multiset(r.value) == multiset(files) && SortedBy(r.value, KeyOrZero(key))
  {
    if exists f :: f in files && key(f).None? then Err("ValueError")
    else Ok(SortBy(files, KeyOrZero(key)))
  }

  /** An ordered list holds the same files, each with a key, ascending by that key. */
  lemma OrderedByKey(files: seq<string>, key: string -> Option<int>)
    requires Ordered(files, key).Ok?
    ensures var r := Ordered(files, key).value;
      (forall f :: f in r <==> f in files) &&
      (forall i :: 0 <= i < |r| ==> key(r[i]).Some?) &&
      (forall i, j :: 0 <= i < j < |r| ==> key(r[i]).value <= key(r[j]).value)
  {
    var r := Ordered(files, key).value;
    forall f ensures f in r <==> f in files {
      assert f in r <==> f in multiset(r);
      assert f in files <==> f in multiset(files);
    }
    forall i | 0 <= i < |r| ensures key(r[i]).Some? {
      assert r[i] in r;
    }
    forall i, j | 0 <= i < j < |r| ensures key(r[i]).value <= key(r[j]).value {
      assert r[i] in r && r[j] in r;
      assert KeyOrZero(key)(r[i]) <= KeyOrZero(key)(r[j]);
    }
  }

  /** The GPS files of the script, ascending by the number after the last `_`. */
  function GpsOrder(listing: seq<string>): Result<seq<string>>
  {
    Ordered(CsvFiles(listing), GpsIndex)
  }

  /** The TCN files of the script, ascending by the number before `.txt`. */
  function TcnOrder(listing: seq<string>): Result<seq<string>>
  {
    Ordered(Fresh(listing, {}), TcnIndex)
  }

  // ---------------------------------------------------------------- intervals

  /** `column.apply(hh_mm_ss_to_ss)`, one outcome per row. */
  function ClockColumn(times: seq<string>): (r: seq<Result<real>>)
    ensures |r| == |times| && forall n :: 0 <= n < |r| ==> r[n] == ClockSeconds(times[n])
  {
    seq(|times|, n requires 0 <= n < |times| => ClockSeconds(times[n]))
  }

  /**
   * The intervals of the GPS table (given as its `Start`, `End` and
   * `Velocità` columns): both time columns are read as clock seconds,
   * and the first start is subtracted from every start and end.  A time
   * that does not parse raises, start column first; an empty table
   * raises `KeyError` at `Start_seconds[0]`.
   */
  function Intervals(starts: seq<string>, ends: seq<string>, speeds: seq<real>): (r: Result<seq<Interval>>)
    requires |starts| == |ends| == |speeds|
    ensures r.Ok? ==> |r.value| == |starts|
  {
    match AllOk(ClockColumn(starts))
    case Err(e) => Err(e)
    case Ok(s) =>
      match AllOk(ClockColumn(ends))
      case Err(e) => Err(e)
      case Ok(e) =>
        if starts == [] then Err("KeyError")
        else Ok(Relative(s, e, speeds))
  }

  /** Intervals whose times are taken relative to the first start. */
  function Relative(s: seq<real>, e: seq<real>, speeds: seq<real>): (r: seq<Interval>)
    requires 0 < |s| == |e| == |speeds|
    ensures |r| == |s|
    ensures forall n :: 0 <= n < |s| ==> r[n] == Interval(s[n] - s[0], e[n] - s[0], speeds[n])
  {
    seq(|s|, n requires 0 <= n < |s| => Interval(s[n] - s[0], e[n] - s[0], speeds[n]))
  }

  /** The intervals exist exactly when the table is non-empty and every time in it parses. */
  lemma IntervalsDefined(starts: seq<string>, ends: seq<string>, speeds: seq<real>)
    requires |starts| == |ends| == |speeds|
    ensures Intervals(starts, ends, speeds).Ok? <==>
      starts != [] && forall n :: 0 <= n < |starts| ==> ClockSeconds(starts[n]).Ok? && ClockSeconds(ends[n]).Ok?
  {
    AllOkValues(ClockColumn(starts));
    AllOkValues(ClockColumn(ends));
  }

  /**
   * The first interval starts at 0; interval `n` starts at its clock
   * time minus the first one, and keeps its duration and its speed.
   */
  lemma IntervalsRelative(starts: seq<string>, ends: seq<string>, speeds: seq<real>, n: nat)
    requires |starts| == |ends| == |speeds| && Intervals(starts, ends, speeds).Ok? && n < |starts|
    ensures ClockSeconds(starts[0]).Ok? && ClockSeconds(starts[n]).Ok? && ClockSeconds(ends[n]).Ok?
    ensures var r := Intervals(starts, ends, speeds).value;
      r[0].start == 0.0 &&
      r[n].start == ClockSeconds(starts[n]).value - ClockSeconds(starts[0]).value &&
      r[n].end - r[n].start == ClockSeconds(ends[n]).value - ClockSeconds(starts[n]).value &&
      r[n].speed == speeds[n]
  {
    var cs, ce := ClockColumn(starts), ClockColumn(ends);
    RelativeColumns(cs, ce, speeds, n);
    assert cs[0] == ClockSeconds(starts[0]) && cs[n] == ClockSeconds(starts[n]) && ce[n] == ClockSeconds(ends[n]);
  }

  /** `IntervalsRelative` over any two parsed columns. */
  lemma RelativeColumns(cs: seq<Result<real>>, ce: seq<Result<real>>, speeds: seq<real>, n: nat)
    requires 0 < |cs| == |ce| == |speeds| && AllOk(cs).Ok? && AllOk(ce).Ok? && n < |cs|
    ensures cs[0].Ok? && cs[n].Ok? && ce[n].Ok?
    ensures var r := Relative(AllOk(cs).value, AllOk(ce).value, speeds);
      r[0].start == 0.0 &&
      r[n].start == cs[n].value - cs[0].value &&
      r[n].end - r[n].start == ce[n].value - cs[n].value &&
      r[n].speed == speeds[n]
  {
    AllOkValues(cs);
    AllOkValues(ce);
  }

  // ---------------------------------------------------------------- loading the samples

  /** The samples of the files read, in order, each file scaled on its own. */
  function Loaded(contents: seq<seq<int>>): (r: seq<real>)
  {
    if contents == [] then []
    else Loaded(contents[..|contents| - 1]) + Scaled(contents[|contents| - 1])
  }

  /** The number of lines in the files read. */
  function LineCount(contents: seq<seq<int>>): nat
  {
    if contents == [] then 0
    else LineCount(contents[..|contents| - 1]) + |contents[|contents| - 1]|
  }

  /** Appending a file appends its scaled samples. */
  lemma LoadedStep(contents: seq<seq<int>>, lines: seq<int>)
    ensures Loaded(contents + [lines]) == Loaded(contents) + Scaled(lines)
  {
    assert (contents + [lines])[..|contents|] == contents;
  }

  /**
   * Line `i` of file `q` becomes the sample after all the lines of the
   * files before it, scaled: at 8192 samples a second, file `q` begins
   * at the time its predecessors take.
   */
  lemma {:induction false} LoadedAt(contents: seq<seq<int>>, q: nat, i: nat)
    requires q < |contents| && i < |contents[q]|
    ensures |Loaded(contents)| == LineCount(contents)
    ensures LineCount(contents[..q]) + i < |Loaded(contents)|
    ensures Loaded(contents)[LineCount(contents[..q]) + i] * FullScale as real == contents[q][i] as real
    decreases |contents|
  {
    var init := contents[..|contents| - 1];
    var last := contents[|contents| - 1];
    if q == |contents| - 1 {
      assert contents[..q] == init;
      LoadedLength(init);
      assert Loaded(contents)[|Loaded(init)| + i] == Scaled(last)[i];
    } else {
      assert init[..q] == contents[..q];
      LoadedAt(init, q, i);
      assert Loaded(contents)[LineCount(init[..q]) + i] == Loaded(init)[LineCount(init[..q]) + i];
    }
  }

  lemma {:induction false} LoadedLength(contents: seq<seq<int>>)
    ensures |Loaded(contents)| == LineCount(contents)
    decreases |contents|
  {
    if contents != [] {
      LoadedLength(contents[..|contents| - 1]);
    }
  }

  /** The outcome of reading each file, in order. */
  function Reads(files: seq<string>, read: string -> Result<seq<int>>): (r: seq<Result<seq<int>>>)
    ensures |r| == |files| && forall q :: 0 <= q < |r| ==> r[q] == read(files[q])
  {
    seq(|files|, q requires 0 <= q < |files| => read(files[q]))
  }

  /**
   * The samples of the given files, each read and scaled and appended;
   * the first file that cannot be read (or holds a line `int` rejects)
   * raises.
   */
  function FileSamples(files: seq<string>, read: string -> Result<seq<int>>): Result<seq<real>>
  {
    match AllOk(Reads(files, read))
    case Err(e) => Err(e)
    case Ok(contents) => Ok(Loaded(contents))
  }

  /** The samples of the script: the TCN files in key order, loaded; the sort may raise too. */
  function ScriptSamples(listing: seq<string>, read: string -> Result<seq<int>>): Result<seq<real>>
  {
    match TcnOrder(listing)
    case Err(e) => Err(e)
    case Ok(files) => FileSamples(files, read)
  }

  /** The loop of the script that fills `tcn_total`, file by file. */
  method LoadFiles(files: seq<string>, read: string -> Result<seq<int>>) returns (r: Result<seq<real>>)
    ensures r == FileSamples(files, read)
  {
    ghost var outcomes := Reads(files, read);
    var total: seq<real> := [];
    ghost var contents: seq<seq<int>> := [];
    var q := 0;
    while q < |files|
      invariant 0 <= q <= |files|
      invariant AllOk(outcomes[..q]) == Ok(contents) && total == Loaded(contents)
    {
      var outcome := read(files[q]);
      assert outcomes[q] == outcome;
      if outcome.Err? {
        AllOkFirstError(outcomes, q + 1);
        return Err(outcome.error);
      }
      var lines := outcome.value;
      LoadFilesStep(outcomes, q, contents);
      contents := contents + [lines];
      total := total + Scaled(lines);
      q := q + 1;
    }
    assert outcomes[..q] == outcomes;
    r := Ok(total);
  }

  /** One file more read: its values extend the contents, its scaled samples the total. */
  lemma LoadFilesStep(outcomes: seq<Result<seq<int>>>, q: nat, contents: seq<seq<int>>)
    requires q < |outcomes| && AllOk(outcomes[..q]) == Ok(contents) && outcomes[q].Ok?
    ensures AllOk(outcomes[..q + 1]) == Ok(contents + [outcomes[q].value])
    ensures Loaded(contents + [outcomes[q].value]) == Loaded(contents) + Scaled(outcomes[q].value)
  {
    AllOkStep(outcomes, q, contents);
    LoadedStep(contents, outcomes[q].value);
  }

  /** The script's loading: the sort, then the loop over the sorted files. */
  method LoadTcn(listing: seq<string>, read: string -> Result<seq<int>>) returns (r: Result<seq<real>>)
    ensures r == ScriptSamples(listing, read)
  {
    var order := TcnOrder(listing);
    if order.Err? {
      return Err(order.error);
    }
    r := LoadFiles(order.value, read);
  }

  // ---------------------------------------------------------------- the script's row loop

  /** One row of the script: measured when its end lies before the last sample, otherwise left NA. */
  function ScriptRow(samples: seq<real>, row: Interval, fit: Fit, level: seq<real> -> real, log10: real -> real): Option<Measure>
  {
    if ScriptReady(row, |samples|) then Some(Measured(samples, row, fit, level, log10)) else None
  }

  /** The row loop of the script, in row order. */
  method ClassifyRows(samples: seq<real>, rows: seq<Interval>, fit: Fit, level: seq<real> -> real, log10: real -> real)
    returns (out: seq<Option<Measure>>)
    ensures |out| == |rows|
    ensures forall n :: 0 <= n < |rows| ==>
      (out[n].Some? <==> rows[n].end * Rate < |samples| as real) &&
      (out[n].Some? ==> out[n].value == Measured(samples, rows[n], fit, level, log10))
  {
    out := [];
    var n := 0;
    while n < |rows|
      invariant 0 <= n <= |rows| && |out| == n
      invariant forall k :: 0 <= k < n ==> out[k] == ScriptRow(samples, rows[k], fit, level, log10)
    {
      if rows[n].end * Rate < |samples| as real {
        var m := MeasureRow(samples, rows[n], fit, level, log10);
        out := out + [Some(m)];
      } else {
        out := out + [None];
      }
      n := n + 1;
    }
  }

  // ---------------------------------------------------------------- the incremental analysis

  /** A table whose three result columns are all NA. */
  function Unmeasured(k: nat): (r: seq<Option<Measure>>)
    ensures |r| == k && forall n :: 0 <= n < k ==> r[n].None?
  {
    seq(k, n => None)
  }

  /** The number of measured rows. */
  function DoneCount(results: seq<Option<Measure>>): (c: nat)
    ensures c <= |results|
  {
    if results == [] then 0
    else DoneCount(results[..|results| - 1]) + (if results[|results| - 1].Some? then 1 else 0)
  }

  /** Measuring one NA row adds one to the count. */
  lemma {:induction false} DoneCountSet(results: seq<Option<Measure>>, n: nat, m: Measure)
    requires n < |results| && results[n].None?
    ensures DoneCount(results[n := Some(m)]) == DoneCount(results) + 1
    decreases |results|
  {
    var r := results[n := Some(m)];
    var init := results[..|results| - 1];
    if n < |results| - 1 {
      assert r[..|r| - 1] == init[n := Some(m)];
      DoneCountSet(init, n, m);
    } else {
      assert r[..|r| - 1] == init;
    }
  }

  /** Every row is measured exactly when the count reaches the number of rows. */
  lemma {:induction false} DoneCountFull(results: seq<Option<Measure>>)
    ensures DoneCount(results) == |results| <==> forall n :: 0 <= n < |results| ==> results[n].Some?
    decreases |results|
  {
    if results != [] {
      var init := results[..|results| - 1];
      DoneCountFull(init);
      assert forall n :: 0 <= n < |init| ==> init[n] == results[n];
    }
  }

  /** A row at or after the first start: its sample indices are not negative. */
  predicate AfterFirstStart(row: Interval)
  {
    0.0 <= row.start && 0.0 <= row.end
  }

  /** More samples neither undo readiness nor change the segment of a ready row. */
  lemma SegmentStable(samples: seq<real>, more: seq<real>, row: Interval)
    requires AfterFirstStart(row) && MonitorReady(row, |samples|)
    ensures MonitorReady(row, |samples + more|)
    ensures Segment(samples + more, row) == Segment(samples, row)
  {
    var i, j := Numeric.Trunc(row.start * Rate), Numeric.Trunc(row.end * Rate);
    assert 0 <= i && 0 <= j < |samples|;
    if i <= j {
      assert (samples + more)[i..j] == samples[i..j];
    }
  }

  /**
   * What the results say about the samples: every measured row was
   * ready, and a row at or after the first start holds the measurement
   * of its segment.
   */
  predicate Consistent(results: seq<Option<Measure>>, rows: seq<Interval>, samples: seq<real>,
                       fit: Fit, level: seq<real> -> real, log10: real -> real)
  {
    |results| == |rows| &&
    forall n :: 0 <= n < |results| && results[n].Some? ==>
      MonitorReady(rows[n], |samples|) &&
      (AfterFirstStart(rows[n]) ==> results[n].value == Measured(samples, rows[n], fit, level, log10))
  }

  /** Appending samples keeps the results consistent. */
  lemma ConsistentGrows(results: seq<Option<Measure>>, rows: seq<Interval>, samples: seq<real>, more: seq<real>,
                        fit: Fit, level: seq<real> -> real, log10: real -> real)
    requires Consistent(results, rows, samples, fit, level, log10)
    ensures Consistent(results, rows, samples + more, fit, level, log10)
  {
    forall n | 0 <= n < |results| && results[n].Some?
      ensures MonitorReady(rows[n], |samples + more|)
      ensures AfterFirstStart(rows[n]) ==>
        results[n].value == Measured(samples + more, rows[n], fit, level, log10)
    {
      if AfterFirstStart(rows[n]) {
        SegmentStable(samples, more, rows[n]);
      } else {
        assert |samples| <= |samples + more|;
      }
    }
  }

  /**
   * A measured row at or after the first start holds what the script
   * computes for it on any later, longer sample sequence: the script
   * finds it ready too, and measures the same segment.
   */
  lemma DoneMatchesScript(results: seq<Option<Measure>>, rows: seq<Interval>, samples: seq<real>, later: seq<real>,
                          fit: Fit, level: seq<real> -> real, log10: real -> real, n: nat)
    requires Consistent(results, rows, samples, fit, level, log10)
    requires samples <= later && n < |rows| && results[n].Some? && AfterFirstStart(rows[n])
    ensures results[n] == ScriptRow(later, rows[n], fit, level, log10)
  {
    var more := later[|samples|..];
    assert later == samples + more;
    SegmentStable(samples, more, rows[n]);
    ReadyAgree(rows[n], |later|);
  }

  /**
   * One pass of `analyze` over the rows: a measured row keeps its
   * result; an NA row is measured if its end index lies inside the
   * samples, and stays NA otherwise.
   */
  function Passed(results: seq<Option<Measure>>, rows: seq<Interval>, samples: seq<real>,
                  fit: Fit, level: seq<real> -> real, log10: real -> real): (r: seq<Option<Measure>>)
    requires |results| == |rows|
    ensures |r| == |results|
  {
    seq(|results|, n requires 0 <= n < |results| =>
      if results[n].Some? then results[n]
      else if MonitorReady(rows[n], |samples|) then Some(Measured(samples, rows[n], fit, level, log10))
      else None)
  }

  /**
   * The loop of one `analyze` round over a copy of the samples: each NA
   * row whose end index lies inside them is measured, and `count` says
   * how many were.
   */
  method PassRows(results: seq<Option<Measure>>, rows: seq<Interval>, samples: seq<real>,
                  fit: Fit, level: seq<real> -> real, log10: real -> real)
    returns (done: seq<Option<Measure>>, count: nat)
    requires |results| == |rows|
    ensures done == Passed(results, rows, samples, fit, level, log10)
    ensures DoneCount(done) == DoneCount(results) + count
  {
    ghost var target := Passed(results, rows, samples, fit, level, log10);
    done := results;
    count := 0;
    var n := 0;
    while n < |rows|
      invariant 0 <= n <= |rows| == |done|
      invariant forall k :: 0 <= k < n ==> done[k] == target[k]
      invariant forall k :: n <= k < |rows| ==> done[k] == results[k]
      invariant DoneCount(done) == DoneCount(results) + count
    {
      if done[n].None? && MonitorReady(rows[n], |samples|) {
        var m := MeasureRow(samples, rows[n], fit, level, log10);
        assert target[n] == Some(m);
        DoneCountSet(done, n, m);
        done := done[n := Some(m)];
        count := count + 1;
      }
      n := n + 1;
    }
  }

  /** A pass keeps the results consistent with the samples it read. */
  lemma PassedConsistent(results: seq<Option<Measure>>, rows: seq<Interval>, samples: seq<real>,
                         fit: Fit, level: seq<real> -> real, log10: real -> real)
    requires Consistent(results, rows, samples, fit, level, log10)
    ensures Consistent(Passed(results, rows, samples, fit, level, log10), rows, samples, fit, level, log10)
  {
  }

  /** Once every row's end index lies inside the samples, one pass measures every row. */
  lemma PassCompletes(results: seq<Option<Measure>>, rows: seq<Interval>, samples: seq<real>,
                      fit: Fit, level: seq<real> -> real, log10: real -> real)
    requires |results| == |rows|
    requires forall n :: 0 <= n < |rows| ==> MonitorReady(rows[n], |samples|)
    ensures DoneCount(Passed(results, rows, samples, fit, level, log10)) == |rows|
  {
    DoneCountFull(Passed(results, rows, samples, fit, level, log10));
  }

  /** A pass over a table with every row measured changes nothing. */
  lemma PassIdle(results: seq<Option<Measure>>, rows: seq<Interval>, samples: seq<real>,
                 fit: Fit, level: seq<real> -> real, log10: real -> real)
    requires |results| == |rows| && DoneCount(results) == |results|
    ensures Passed(results, rows, samples, fit, level, log10) == results
  {
    DoneCountFull(results);
  }

  /** After a poll in which every new file could be read, the same listing holds nothing new. */
  lemma PollSettles(listing: seq<string>, known: set<string>, read: string -> Result<seq<int>>, key: string -> Option<int>)
    requires Ordered(Fresh(listing, known), key).Ok?
    requires forall f :: f in Fresh(listing, known) ==> read(f).Ok?
    ensures Fresh(listing, known + ReadableSet(Ordered(Fresh(listing, known), key).value, read)) == []
  {
    var unread := Fresh(listing, known);
    var files := Ordered(unread, key).value;
    var after := known + ReadableSet(files, read);
    OrderedByKey(unread, key);
    forall f | f in listing && TcnListed(f)
      ensures f in after
    {
      if f !in known {
        assert f in unread;
        assert f in files && read(f).Ok?;
      }
    }
    FreshNone(listing, after);
  }

  /** The files a poll adds are listed `.txt` files without `final_data`, none of them known before. */
  lemma PolledFilesListed(listing: seq<string>, known: set<string>, read: string -> Result<seq<int>>, key: string -> Option<int>)
    requires Ordered(Fresh(listing, known), key).Ok?
    ensures forall f :: f in ReadableSet(Ordered(Fresh(listing, known), key).value, read) ==>
      f in listing && TcnListed(f) && f !in known && read(f).Ok?
  {
    OrderedByKey(Fresh(listing, known), key);
  }

  /** The contents of the files that could be read, in order; the others are skipped. */
  function Readable(files: seq<string>, read: string -> Result<seq<int>>): seq<seq<int>>
  {
    if files == [] then []
    else
      var last := read(files[|files| - 1]);
      Readable(files[..|files| - 1], read) + (if last.Ok? then [last.value] else [])
  }

  /** The files that could be read. */
  function ReadableSet(files: seq<string>, read: string -> Result<seq<int>>): set<string>
  {
    set f | f in files && read(f).Ok?
  }

  /** One more file: its contents and its name are added exactly when it could be read. */
  lemma ReadableStep(files: seq<string>, read: string -> Result<seq<int>>, i: nat)
    requires i < |files|
    ensures read(files[i]).Ok? ==>
      Readable(files[..i + 1], read) == Readable(files[..i], read) + [read(files[i]).value] &&
      ReadableSet(files[..i + 1], read) == ReadableSet(files[..i], read) + {files[i]}
    ensures read(files[i]).Err? ==>
      Readable(files[..i + 1], read) == Readable(files[..i], read) &&
      ReadableSet(files[..i + 1], read) == ReadableSet(files[..i], read)
  {
    assert files[..i + 1][..i] == files[..i];
    assert files[..i + 1] == files[..i] + [files[i]];
  }

  /** When every file can be read, all their contents are kept, in order. */
  lemma {:induction false} ReadableAll(files: seq<string>, read: string -> Result<seq<int>>)
    requires forall q :: 0 <= q < |files| ==> read(files[q]).Ok?
    ensures |Readable(files, read)| == |files|
    ensures forall q :: 0 <= q < |files| ==> Readable(files, read)[q] == read(files[q]).value
    decreases |files|
  {
    if files != [] {
      var init := files[..|files| - 1];
      ReadableAll(init, read);
      assert forall q :: 0 <= q < |init| ==> Readable(files, read)[q] == Readable(init, read)[q];
    }
  }

  /**
   * A first poll appends exactly the samples the batch script loads,
   * whenever the script loads without error.
   */
  lemma FirstPollAsScript(listing: seq<string>, read: string -> Result<seq<int>>)
    requires ScriptSamples(listing, read).Ok?
    ensures TcnOrder(listing).Ok?
    ensures Loaded(Readable(TcnOrder(listing).value, read)) == ScriptSamples(listing, read).value
  {
    ReadableAsLoaded(TcnOrder(listing).value, read);
  }

  /** When the files load without error, the readable ones are all of them. */
  lemma ReadableAsLoaded(files: seq<string>, read: string -> Result<seq<int>>)
    requires FileSamples(files, read).Ok?
    ensures Loaded(Readable(files, read)) == FileSamples(files, read).value
  {
    var outcomes := Reads(files, read);
    AllOkValues(outcomes);
    ReadableAll(files, read);
    assert Readable(files, read) == AllOk(outcomes).value;
  }

  /**
   * `Classificazione_Audio`: the GPS rows and the fit it was built with,
   * the samples and files the monitor thread has appended, and the three
   * result columns `analyze` fills.
   */
  class Classifier {
    const rows: seq<Interval>
    const fit: Fit
    /** The level of a stretch of samples: `20·log10` of the RMS of its filtered values. */
    const level: seq<real> -> real
    const log10: real -> real
    /** The key new files are sorted by: `ind_tcn`. */
    const key: string -> Option<int>
    /** `tcn_total` */
    var total: seq<real>
    /** `tcn_file_set` */
    var fileSet: set<string>
    /** Whether the monitor thread still runs: an exception in its sort ends it. */
    var monitoring: bool
    /** `classe_acustica`, `LF[315,1000]_max`, `LF[315,1000]_mean`; `None` is NA. */
    var results: seq<Option<Measure>>

    ghost predicate Valid()
      reads this
    {
      Consistent(results, rows, total, fit, level, log10)
    }

    /** Every result column NA, no samples, no file read, and the monitor started. */
    constructor (rows: seq<Interval>, fit: Fit, level: seq<real> -> real, log10: real -> real)
      ensures Valid()
      ensures this.rows == rows && this.fit == fit && this.level == level && this.log10 == log10
      ensures key == TcnIndex
      ensures total == [] && fileSet == {} && monitoring && results == Unmeasured(|rows|)
    {
      this.rows := rows;
      this.fit := fit;
      this.level := level;
      this.log10 := log10;
      key := TcnIndex;
      total := [];
      fileSet := {};
      monitoring := true;
      results := Unmeasured(|rows|);
    }

    /**
     * One round of `monitor_tcn_folder`: the listed files not read yet,
     * sorted by key, are read in order; each one that can be read has
     * its scaled samples appended and joins the file set, each one that
     * cannot is skipped and tried again next round.  A name without a
     * key makes the sort raise, which ends the thread.
     */
    method Poll(listing: seq<string>, read: string -> Result<seq<int>>)
      requires Valid()
      modifies this
      ensures Valid()
      ensures results == old(results)
      ensures var order := Ordered(Fresh(listing, old(fileSet)), key);
        if !old(monitoring) || order.Err? then
          total == old(total) && fileSet == old(fileSet) && !monitoring
        else
          monitoring &&
          total == old(total) + Loaded(Readable(order.value, read)) &&
          fileSet == old(fileSet) + ReadableSet(order.value, read)
    {
      if !monitoring {
        return;
      }
      var order := Ordered(Fresh(listing, fileSet), key);
      if order.Err? {
        monitoring := false;
        return;
      }
      var files := order.value;
      var samples, known := total, fileSet;
      var i := 0;
      while i < |files|
        invariant 0 <= i <= |files|
        invariant samples == total + Loaded(Readable(files[..i], read))
        invariant known == fileSet + ReadableSet(files[..i], read)
        invariant unchanged(this)
      {
        ReadableStep(files, read, i);
        var contents := read(files[i]);
        if contents.Ok? {
          var lines := contents.value;
          LoadedStep(Readable(files[..i], read), lines);
          Associative(total, Loaded(Readable(files[..i], read)), Scaled(lines));
          samples := samples + Scaled(lines);
          known := known + {files[i]};
        }
        i := i + 1;
      }
      assert files[..i] == files;
      ConsistentGrows(results, rows, total, Loaded(Readable(files, read)), fit, level, log10);
      total, fileSet := samples, known;
    }

    /**
     * One round of `analyze` (with an NA cell read as "not analysed
     * yet"): the samples are copied once, then every NA row whose end
     * index lies inside them is measured; `count` is what the round
     * adds to `n_analizzati`.
     */
    method Pass() returns (count: nat)
      requires Valid()
      modifies this
      ensures Valid()
      ensures total == old(total) && fileSet == old(fileSet) && monitoring == old(monitoring)
      ensures results == Passed(old(results), rows, total, fit, level, log10)
      ensures DoneCount(results) == DoneCount(old(results)) + count
    {
      var data := total;
      var done;
      done, count := PassRows(results, rows, data, fit, level, log10);
      PassedConsistent(results, rows, data, fit, level, log10);
      results := done;
    }

    /**
     * `analyze`: passes until `n_analizzati`, counted from 0 by this
     * call, reaches the number of rows.  Between two passes the monitor
     * polls the next listing; the model stops, unfinished, when the
     * listings run out, where the source would keep waiting.
     */
    method Analyze(listings: seq<seq<string>>, read: string -> Result<seq<int>>) returns (finished: bool)
      requires Valid()
      modifies this
      ensures Valid()
      ensures finished ==> forall n :: 0 <= n < |rows| ==> results[n].Some?
      ensures forall n :: 0 <= n < |rows| && old(results)[n].Some? ==> results[n] == old(results)[n]
      ensures DoneCount(old(results)) > 0 ==> !finished
      ensures DoneCount(old(results)) == 0 && (forall n :: 0 <= n < |rows| ==> MonitorReady(rows[n], |old(total)|))
        ==> finished
    {
      ghost var start := results;
      ghost var readyAtStart := forall n :: 0 <= n < |rows| ==> MonitorReady(rows[n], |total|);
      var analysed := 0;
      var k := 0;
      finished := false;
      while analysed < |rows|
        invariant Valid() && |results| == |rows| && k <= |listings|
        invariant analysed + DoneCount(start) == DoneCount(results)
        invariant forall n :: 0 <= n < |rows| && start[n].Some? ==> results[n] == start[n]
        invariant k == 0 ==> total == old(total)
        invariant readyAtStart && DoneCount(start) == 0 ==> k == 0
        decreases |listings| - k
      {
        ghost var ready := forall n :: 0 <= n < |rows| ==> MonitorReady(rows[n], |total|);
        ghost var before := results;
        var c := Pass();
        analysed := analysed + c;
        if ready {
          PassCompletes(before, rows, total, fit, level, log10);
        }
        if analysed >= |rows| {
          break;
        }
        if k == |listings| {
          return;
        }
        Poll(listings[k], read);
        k := k + 1;
      }
      DoneCountFull(results);
      finished := true;
    }
  }

  // ---------------------------------------------------------------- the NA check as written

  /**
   * `not np.isnan(cell)` as written in `analyze`.  The class column is a
   * nullable integer column filled with `pd.NA`; `np.isnan(pd.NA)` is
   * `pd.NA` again and `not pd.NA` raises `TypeError`.  A measured cell
   * is an integer, `np.isnan` of it is false, and the row is skipped.
   */
  function SkipAsWritten(cell: Option<Measure>): (r: Result<bool>)
    ensures r.Err? <==> cell.None?
  {
    match cell
    case None => Err("TypeError")
    case Some(_) => Ok(true)
  }

  /**
   * The row loop of `analyze` as written, from row `n` on: each row is
   * skipped or raises before its samples are looked at.
   */
  function PassAsWritten(results: seq<Option<Measure>>, n: nat): Result<seq<Option<Measure>>>
    requires n <= |results|
    decreases |results| - n
  {
    if n == |results| then Ok(results)
    else
      match SkipAsWritten(results[n])
      case Err(e) => Err(e)
      case Ok(_) => PassAsWritten(results, n + 1)
  }

  /**
   * As written, a pass raises `TypeError` at the first NA row and
   * otherwise changes nothing: it can never measure a row.
   */
  lemma {:induction false} PassAsWrittenMeasuresNothing(results: seq<Option<Measure>>, n: nat)
    requires n <= |results|
    ensures var r := PassAsWritten(results, n);
      (r.Ok? <==> forall k :: n <= k < |results| ==> results[k].Some?) &&
      (r.Ok? ==> r.value == results) &&
      (r.Err? ==> r.error == "TypeError")
    decreases |results| - n
  {
    if n < |results| {
      PassAsWrittenMeasuresNothing(results, n + 1);
    }
  }

  /** `analyze` starts from an all-NA table, so as written its first pass raises on row 0. */
  lemma FirstPassRaises(rows: seq<Interval>)
    requires rows != []
    ensures PassAsWritten(Unmeasured(|rows|), 0) == Err("TypeError")
  {
    PassAsWrittenMeasuresNothing(Unmeasured(|rows|), 0);
  }
}
