/**
 * The helpers the two `Classificazione_tcn.py` copies share (the batch
 * script of `src/audio/` and the `Classificazione_Audio` class of
 * `Audio/`): the acoustic class of a road interval from its loudest
 * low-frequency level, the clock time of a GPS row in seconds, the
 * numeric keys of the GPS and TCN file names, the scaling of the 24-bit
 * samples, and the half-overlapping 2048-sample windows an interval is
 * measured on.
 *
 * The band-pass filter (`sosfilt`), the level of a stretch of samples
 * (`20·log10` of its RMS) and `log10` of the speed are floating-point
 * computations outside this model: they enter as the function
 * parameters `level` and `log10`.  Levels and times are exact reals.
 */
module Acoustic {
  import opened Base
  import opened Text
  import Numeric

  // ---------------------------------------------------------------- assegna_classe_acustica

  /** `popt`: the level `a·log10(v) + b` the fit expects at `v` km/h. */
  datatype Fit = Fit(a: real, b: real)

  /** The level the fit predicts, given `log10` of the speed. */
  function Predicted(fit: Fit, lg: real): real
  {
    fit.a * lg + fit.b
  }

  /**
   * `assegna_classe_acustica`: -1 below 21 km/h; otherwise 0, 1 or 2 as
   * the loudest level exceeds the fitted one by less than 2 dB, by 2 to
   * 4 dB, or by more than 4 dB.
   */
  function AcousticClass(fit: Fit, speed: real, splMax: real, log10: real -> real): (c: int)
    ensures -1 <= c <= 2
    ensures c == -1 <==> speed < 21.0
  {
    if speed < 21.0 then -1
    else
      var dspl := splMax - Predicted(fit, log10(speed));
      if dspl < 2.0 then 0 else if dspl > 4.0 then 2 else 1
  }

  /** At 21 km/h or more the three classes split the excess at 2 and 4 dB, both bounds in class 1. */
  lemma ClassBands(fit: Fit, speed: real, splMax: real, log10: real -> real)
    requires speed >= 21.0
    ensures var c := AcousticClass(fit, speed, splMax, log10);
      var excess := splMax - Predicted(fit, log10(speed));
      (c == 0 <==> excess < 2.0) &&
      (c == 1 <==> 2.0 <= excess <= 4.0) &&
      (c == 2 <==> excess > 4.0)
  {
  }

  /** At the same speed a louder interval never gets a lower class. */
  lemma ClassMonotone(fit: Fit, speed: real, quiet: real, loud: real, log10: real -> real)
    requires quiet <= loud
    ensures AcousticClass(fit, speed, quiet, log10) <= AcousticClass(fit, speed, loud, log10)
  {
  }

  // ---------------------------------------------------------------- hh_mm_ss_to_ss

  /**
   * `hh_mm_ss_to_ss`: the text after the last space is split at `:` and
   * read by `ClockFields`.  The date in front is ignored.
   */
  function ClockSeconds(time: string): Result<real>
  {
    ClockFields(Split(AfterLast(time, ' '), ':'))
  }

  /**
   * Hours are the first field, minutes the second, seconds the LAST one,
   * read in that order: a first field `float` rejects raises `ValueError`
   * before a missing second field raises `IndexError`.
   */
  function ClockFields(fields: seq<string>): (r: Result<real>)
    ensures r.Ok? <==> |fields| >= 2 && PyFloat(fields[0]).Some? && PyFloat(fields[1]).Some? &&
                       PyFloat(fields[|fields| - 1]).Some?
    ensures r == Err("IndexError") <==> |fields| == 0 || (|fields| == 1 && PyFloat(fields[0]).Some?)
    ensures r.Err? ==> r.error == "IndexError" || r.error == "ValueError"
  {
    if |fields| == 0 then Err("IndexError")
    else
      match PyFloat(fields[0])
      case None => Err("ValueError")
      case Some(hh) =>
        if |fields| < 2 then Err("IndexError")
        else
          match PyFloat(fields[1])
          case None => Err("ValueError")
          case Some(mm) =>
            match PyFloat(fields[|fields| - 1])
            case None => Err("ValueError")
            case Some(ss) => Ok(hh * 3600.0 + mm * 60.0 + ss)
  }

  /** No character of `s` is `c`. */
  predicate Lacks(s: string, c: char)
  {
    forall j :: 0 <= j < |s| ==> s[j] != c
  }

  /** What follows the last space, when no space follows it. */
  lemma AfterLastSpace(date: string, t: string)
    requires Lacks(t, ' ')
    ensures AfterLast(date + " " + t, ' ') == t
  {
    var s := date + " " + t;
    assert s[|date|] == ' ';
    assert forall j :: |date| < j < |s| ==> s[j] == t[j - |date| - 1];
    assert s[|date| + 1..] == t;
  }

  /** Text without `c` is one field. */
  lemma SplitNone(a: string, c: char)
    requires Lacks(a, c)
    ensures Split(a, c) == [a]
  {
  }

  /** Text without `c`, then `c`, is a field followed by the fields of the rest. */
  lemma SplitFirst(a: string, c: char, rest: string)
    requires Lacks(a, c)
    ensures Split(a + [c] + rest, c) == [a] + Split(rest, c)
  {
    var s := a + [c] + rest;
    assert s[|a|] == c;
    assert IndexOf(s, c) == Some(|a|);
    assert s[..|a|] == a && s[|a| + 1..] == rest;
  }

  /** Decimal digits hold no `:`, no space and no `_`. */
  lemma DigitsPlain(n: nat)
    ensures Lacks(ShowNat(n), ':') && Lacks(ShowNat(n), ' ') && Lacks(ShowNat(n), '_')
  {
    var d := ShowNat(n);
    forall j | 0 <= j < |d| ensures d[j] != ':' && d[j] != ' ' && d[j] != '_' {
      assert IsDigit(d[j]);
    }
  }

  lemma PyFloatShowNat(n: nat)
    ensures PyFloat(ShowNat(n)) == Some(n as real)
  {
    PyFloatShowInt(n);
  }

  /** Two texts without spaces joined by `:` hold no space. */
  lemma ColonJoinedPlain(a: string, b: string)
    requires Lacks(a, ' ') && Lacks(b, ' ')
    ensures Lacks(a + ":" + b, ' ')
  {
    var t := a + ":" + b;
    forall j | 0 <= j < |t| ensures t[j] != ' ' {
      if j < |a| {
        assert t[j] == a[j];
      } else if j > |a| {
        assert t[j] == b[j - |a| - 1];
      }
    }
  }

  /** Regrouping `a:b:c` as `a`, `:`, then `b:c`. */
  lemma ColonRegroup(a: string, b: string, c: string)
    ensures a + ":" + b + ":" + c == a + [':'] + (b + ":" + c)
  {
  }

  /** `a:b:c` splits into its three fields when none of them holds a `:`. */
  lemma SplitThree(a: string, b: string, c: string)
    requires Lacks(a, ':') && Lacks(b, ':') && Lacks(c, ':')
    ensures Split(a + ":" + b + ":" + c, ':') == [a, b, c]
  {
    var bc := b + ":" + c;
    assert Split(bc, ':') == [b, c] by {
      SplitFirst(b, ':', c);
      SplitNone(c, ':');
      assert bc == b + [':'] + c;
    }
    assert Split(a + ":" + b + ":" + c, ':') == [a] + Split(bc, ':') by {
      SplitFirst(a, ':', bc);
      ColonRegroup(a, b, c);
    }
  }

  /** The fields read as numbers give hours, minutes and the last field's seconds. */
  lemma ClockFieldsOf(fields: seq<string>, hh: real, mm: real, ss: real)
    requires |fields| >= 2
    requires PyFloat(fields[0]) == Some(hh) && PyFloat(fields[1]) == Some(mm)
    requires PyFloat(fields[|fields| - 1]) == Some(ss)
    ensures ClockFields(fields) == Ok(hh * 3600.0 + mm * 60.0 + ss)
  {
  }

  /**
   * A time `<date> a:b:c` whose fields hold no `:` and no space reads as
   * `a*3600 + b*60 + c` seconds.
   */
  lemma ClockOfFields(date: string, a: string, b: string, c: string, hh: real, mm: real, ss: real)
    requires Lacks(a, ':') && Lacks(b, ':') && Lacks(c, ':')
    requires Lacks(a, ' ') && Lacks(b, ' ') && Lacks(c, ' ')
    requires PyFloat(a) == Some(hh) && PyFloat(b) == Some(mm) && PyFloat(c) == Some(ss)
    ensures ClockSeconds(date + " " + (a + ":" + b + ":" + c)) == Ok(hh * 3600.0 + mm * 60.0 + ss)
  {
    var t := a + ":" + b + ":" + c;
    ColonJoinedPlain(a, b);
    ColonJoinedPlain(a + ":" + b, c);
    SplitThree(a, b, c);
    AfterLastSpace(date, t);
    ClockFieldsOf([a, b, c], hh, mm, ss);
  }

  /** A time written `<date> h:m:s` reads back as `h*3600 + m*60 + s` seconds. */
  lemma ClockOfTime(date: string, h: nat, m: nat, s: nat)
    ensures ClockSeconds(date + " " + (ShowNat(h) + ":" + ShowNat(m) + ":" + ShowNat(s)))
      == Ok(h as real * 3600.0 + m as real * 60.0 + s as real)
  {
    DigitsPlain(h);
    DigitsPlain(m);
    DigitsPlain(s);
    PyFloatShowNat(h);
    PyFloatShowNat(m);
    PyFloatShowNat(s);
    ClockOfFields(date, ShowNat(h), ShowNat(m), ShowNat(s), h as real, m as real, s as real);
  }

  /**
   * A time `a:b` with no date and two fields: the seconds are read from the
   * last field, which is the minutes field again.
   */
  lemma ClockOfTwoFields(a: string, b: string, hh: real, mm: real)
    requires Lacks(a, ':') && Lacks(b, ':') && Lacks(a, ' ') && Lacks(b, ' ')
    requires PyFloat(a) == Some(hh) && PyFloat(b) == Some(mm)
    ensures ClockSeconds(a + ":" + b) == Ok(hh * 3600.0 + mm * 60.0 + mm)
  {
    var t := a + ":" + b;
    assert Split(t, ':') == [a, b] by {
      SplitFirst(a, ':', b);
      SplitNone(b, ':');
      assert t == a + [':'] + b;
    }
    assert AfterLast(t, ' ') == t by {
      ColonJoinedPlain(a, b);
      assert LastIndexOf(t, ' ') == None;
    }
    ClockFieldsOf([a, b], hh, mm, mm);
  }

  /** `h:m` reads as `h*3600 + m*60 + m` seconds: the minutes count twice. */
  lemma ClockTwoFields(h: nat, m: nat)
    ensures ClockSeconds(ShowNat(h) + ":" + ShowNat(m)) == Ok(h as real * 3600.0 + m as real * 60.0 + m as real)
  {
    DigitsPlain(h);
    DigitsPlain(m);
    PyFloatShowNat(h);
    PyFloatShowNat(m);
    ClockOfTwoFields(ShowNat(h), ShowNat(m), h as real, m as real);
  }

  /** Two rows at the same clock time on different dates read as the same seconds. */
  lemma ClockIgnoresDate(d1: string, d2: string, t: string)
    requires Lacks(t, ' ')
    ensures ClockSeconds(d1 + " " + t) == ClockSeconds(d2 + " " + t)
  {
    AfterLastSpace(d1, t);
    AfterLastSpace(d2, t);
  }

  /**
   * A time with no `:` is one field: `float` of it runs first, so text
   * that is not a number raises `ValueError` and a number raises
   * `IndexError` at the missing minutes.
   */
  lemma ClockWithoutColon(date: string, t: string)
    requires Lacks(t, ':') && Lacks(t, ' ')
    ensures ClockSeconds(date + " " + t) == if PyFloat(t).None? then Err("ValueError") else Err("IndexError")
  {
    AfterLastSpace(date, t);
    SplitNone(t, ':');
  }

  // ---------------------------------------------------------------- file keys

  /** `ind_gps`: `int(file.split('.csv')[0].split('_')[-1])`; `None` where `int` raises. */
  function GpsIndex(file: string): Option<int>
  {
    PyInt(AfterLast(BeforeFirst(file, ".csv"), '_'))
  }

  /** `ind_tcn`: `int(file.split('.txt')[0])`; `None` where `int` raises. */
  function TcnIndex(file: string): Option<int>
  {
    PyInt(BeforeFirst(file, ".txt"))
  }

  /** The first occurrence of `p` is at `at` when it occurs there and nowhere before. */
  lemma FindIs(s: string, p: string, at: nat)
    requires OccursAt(s, p, at) && forall j :: 0 <= j < at ==> !OccursAt(s, p, j)
    ensures Find(s, p) == Some(at)
  {
    var r := FindFrom(s, p, 0);
    assert r.Some?;
  }

  /** In `<prefix>_<digits>.csv` the first `.csv` is the last four characters. */
  lemma CsvAtEnd(prefix: string, d: string)
    requires forall j :: 0 <= j < |prefix| ==> !OccursAt(prefix, ".csv", j)
    requires AllDigits(d)
    ensures BeforeFirst(prefix + "_" + d + ".csv", ".csv") == prefix + "_" + d
  {
    var stem := prefix + "_" + d;
    var name := stem + ".csv";
    var at := |stem|;
    assert name[at..at + 4] == ".csv";
    forall j | 0 <= j < at ensures !OccursAt(name, ".csv", j) {
      if j + 4 <= |prefix| {
        assert !OccursAt(prefix, ".csv", j);
        assert name[j..j + 4] == prefix[j..j + 4];
      } else if j + 4 <= |name| {
        var q := if j < |prefix| then |prefix| else j;
        assert q < at && q - j < 4;
        assert name[q] == '_' || IsDigit(name[q]) by {
          if q > |prefix| {
            assert name[q] == d[q - |prefix| - 1];
          }
        }
        assert name[j..j + 4][q - j] == name[q];
      }
    }
    FindIs(name, ".csv", at);
    assert name[..at] == stem;
  }

  /** The text after the last `_` of `<prefix>_<digits>` is the digits. */
  lemma AfterLastUnderscore(prefix: string, d: string)
    requires Lacks(d, '_')
    ensures AfterLast(prefix + "_" + d, '_') == d
  {
    var stem := prefix + "_" + d;
    assert stem[|prefix|] == '_';
    assert forall j :: |prefix| < j < |stem| ==> stem[j] == d[j - |prefix| - 1];
    assert stem[|prefix| + 1..] == d;
  }

  /** `<prefix>_<n>.csv` has key `n`, as long as `prefix` holds no `.csv`. */
  lemma GpsIndexOfName(prefix: string, n: nat)
    requires forall j :: 0 <= j < |prefix| ==> !OccursAt(prefix, ".csv", j)
    ensures GpsIndex(prefix + "_" + ShowNat(n) + ".csv") == Some(n)
  {
    var d := ShowNat(n);
    CsvAtEnd(prefix, d);
    DigitsPlain(n);
    AfterLastUnderscore(prefix, d);
    PyIntShowNat(n);
  }

  /** `<n>.txt` has key `n`. */
  lemma TcnIndexOfName(n: nat)
    ensures TcnIndex(ShowNat(n) + ".txt") == Some(n)
  {
    var d := ShowNat(n);
    var name := d + ".txt";
    assert name[|d|..|d| + 4] == ".txt";
    forall j | 0 <= j < |d| ensures !OccursAt(name, ".txt", j) {
      assert IsDigit(name[j]);
      assert name[j..j + 4][0] == name[j];
    }
    FindIs(name, ".txt", |d|);
    assert BeforeFirst(name, ".txt") == d;
    PyIntShowNat(n);
  }

  /** The TCN listing filter: `.txt` files whose name holds no `final_data`. */
  predicate TcnListed(file: string)
  {
    EndsWith(file, ".txt") && Find(file, "final_data").None?
  }

  // ---------------------------------------------------------------- samples

  /** `2**(bitres-1) - 1` with `bitres = 24`. */
  const FullScale: int := 8388607

  /** One file's lines scaled to the range of `-1` to `1`. */
  function Scaled(lines: seq<int>): (r: seq<real>)
    ensures |r| == |lines|
    ensures forall i :: 0 <= i < |r| ==> r[i] * FullScale as real == lines[i] as real
  {
    seq(|lines|, i requires 0 <= i < |lines| => lines[i] as real / FullScale as real)
  }

  /**
   * Every 24-bit code except the most negative lands in `[-1, 1]`; the
   * most negative one, `-2^23`, lands just below -1.
   */
  lemma ScaledRange(lines: seq<int>)
    ensures forall i :: 0 <= i < |lines| && -FullScale <= lines[i] <= FullScale ==>
      -1.0 <= Scaled(lines)[i] <= 1.0
    ensures forall i :: 0 <= i < |lines| && lines[i] == -FullScale - 1 ==> Scaled(lines)[i] < -1.0
  {
    var r := Scaled(lines);
    forall i | 0 <= i < |lines| && -FullScale <= lines[i] <= FullScale
      ensures -1.0 <= r[i] <= 1.0
    {
      assert r[i] * FullScale as real == lines[i] as real;
    }
    forall i | 0 <= i < |lines| && lines[i] == -FullScale - 1
      ensures r[i] < -1.0
    {
      assert r[i] * FullScale as real == lines[i] as real;
    }
  }

  // ---------------------------------------------------------------- one interval

  /** The sampling rate of the TCN, 8192 Hz. */
  const Rate: real := 8192.0

  /** A GPS row: start and end in seconds from the first start, and the speed in m/s. */
  datatype Interval = Interval(start: real, end: real, speed: real)

  /** `tcn_total[int(Start·8192):int(End·8192)]` */
  function Segment(samples: seq<real>, row: Interval): seq<real>
  {
    Numeric.PySlice(samples, Numeric.Trunc(row.start * Rate), Numeric.Trunc(row.end * Rate))
  }

  /** The script's guard: the interval's end lies before the last sample received. */
  predicate ScriptReady(row: Interval, received: nat)
  {
    row.end * Rate < received as real
  }

  /** The class's guard: the truncated end index lies inside what was received. */
  predicate MonitorReady(row: Interval, received: nat)
  {
    Numeric.Trunc(row.end * Rate) < received
  }

  /** For an interval that does not end before the first start the two guards agree. */
  lemma ReadyAgree(row: Interval, received: nat)
    requires row.end >= 0.0
    ensures ScriptReady(row, received) <==> MonitorReady(row, received)
  {
  }

  /**
   * A ready interval that starts at or after the first start and ends
   * no earlier than it starts is cut out whole: the segment is exactly
   * the samples from its start index to its end index.
   */
  lemma ReadySegment(samples: seq<real>, row: Interval)
    requires 0.0 <= row.start <= row.end && ScriptReady(row, |samples|)
    ensures var i, j := Numeric.Trunc(row.start * Rate), Numeric.Trunc(row.end * Rate);
      0 <= i <= j < |samples| && Segment(samples, row) == samples[i..j]
  {
    var x, y := row.start * Rate, row.end * Rate;
    assert x <= y;
    assert Numeric.Trunc(x) <= Numeric.Trunc(y);
  }

  // ---------------------------------------------------------------- windows

  /** `nfft`: the window length. */
  const Nfft: nat := 2048

  /** `nfft // 2`: the step between window starts. */
  const Hop: nat := 1024

  /** The number of windows `range(0, len - nfft + 1, nfft // 2)` yields. */
  function WindowCount(len: nat): nat
  {
    if len < Nfft then 0 else (len - Nfft) / Hop + 1
  }

  /** Window `k` fits in `len` samples exactly when `k` is below the count: all windows lie inside, and no further one would. */
  lemma WindowsFit(len: nat, k: nat)
    ensures k < WindowCount(len) <==> Hop * k + Nfft <= len
  {
  }

  /** The level of every window, in order. */
  function WindowLevels(segment: seq<real>, level: seq<real> -> real): (spl: seq<real>)
    ensures |spl| == WindowCount(|segment|)
  {
    seq(WindowCount(|segment|), k requires 0 <= k < WindowCount(|segment|) =>
      WindowsFit(|segment|, k);
      level(segment[Hop * k..Hop * k + Nfft]))
  }

  /** The loop that fills `spl`: one level per window start, 1024 apart. */
  method MeasureWindows(segment: seq<real>, level: seq<real> -> real) returns (spl: seq<real>)
    ensures spl == WindowLevels(segment, level)
  {
    spl := [];
    var i := 0;
    while i < |segment| - Nfft + 1
      invariant i == Hop * |spl|
      invariant |spl| <= WindowCount(|segment|)
      invariant |spl| < WindowCount(|segment|) <==> i < |segment| - Nfft + 1
      invariant spl == WindowLevels(segment, level)[..|spl|]
    {
      WindowsFit(|segment|, |spl|);
      WindowsFit(|segment|, |spl| + 1);
      spl := spl + [level(segment[i..i + Nfft])];
      i := i + Hop;
    }
  }

  /** `np.sum` of a list, left to right. */
  function RealSum(s: seq<real>): real
  {
    if s == [] then 0.0 else RealSum(s[..|s| - 1]) + s[|s| - 1]
  }

  /** `np.mean` */
  function Mean(s: seq<real>): real
    requires s != []
  {
    RealSum(s) / |s| as real
  }

  /** `np.max`: an element no element exceeds. */
  function Max(s: seq<real>): (m: real)
    requires s != []
    ensures m in s && forall x :: x in s ==> x <= m
  {
    if |s| == 1 then s[0]
    else
      var m := Max(s[..|s| - 1]);
      assert forall x :: x in s ==> x in s[..|s| - 1] || x == s[|s| - 1];
      if s[|s| - 1] > m then s[|s| - 1] else m
  }

  /** A sum of values no greater than `m` is at most `m` per value. */
  lemma {:induction false} SumAtMost(s: seq<real>, m: real)
    requires forall x :: x in s ==> x <= m
    ensures RealSum(s) <= |s| as real * m
  {
    if s != [] {
      var init := s[..|s| - 1];
      assert forall x :: x in init ==> x in s;
      SumAtMost(init, m);
      assert s[|s| - 1] in s;
      assert |init| as real * m + m == |s| as real * m;
    }
  }

  /** The mean never exceeds the maximum. */
  lemma MeanAtMostMax(s: seq<real>)
    requires s != []
    ensures Mean(s) <= Max(s)
  {
    var m := Max(s);
    SumAtMost(s, m);
    var n := |s| as real;
    assert RealSum(s) <= n * m;
    assert RealSum(s) / n <= m by {
      assert (RealSum(s) / n) * n == RealSum(s);
    }
  }

  /** The two levels reported for an interval. */
  datatype Levels = Levels(mean: real, max: real)

  /**
   * Shorter than a window, the interval is measured whole and its one
   * level is both mean and maximum; otherwise the mean and the maximum
   * of its window levels.
   */
  function SegmentLevels(segment: seq<real>, level: seq<real> -> real): Levels
  {
    if |segment| < Nfft then Levels(level(segment), level(segment))
    else
      var spl := WindowLevels(segment, level);
      WindowsFit(|segment|, 0);
      Levels(Mean(spl), Max(spl))
  }

  /**
   * The mean never exceeds the maximum; a short interval has one level
   * for both; a long one's maximum is the level of one of its windows
   * and no window is louder.
   */
  lemma LevelsOrdered(segment: seq<real>, level: seq<real> -> real)
    ensures var l := SegmentLevels(segment, level);
      l.mean <= l.max &&
      (|segment| < Nfft ==> l.mean == l.max == level(segment)) &&
      (|segment| >= Nfft ==>
        (exists k :: 0 <= k < WindowCount(|segment|) && l.max == WindowLevels(segment, level)[k]) &&
        forall k :: 0 <= k < WindowCount(|segment|) ==> WindowLevels(segment, level)[k] <= l.max)
  {
    if |segment| >= Nfft {
      var spl := WindowLevels(segment, level);
      WindowsFit(|segment|, 0);
      MeanAtMostMax(spl);
      var m := Max(spl);
      var k :| 0 <= k < |spl| && spl[k] == m;
      assert forall j :: 0 <= j < |spl| ==> spl[j] in spl;
    }
  }

  /** What an interval gets: its class and the two levels. */
  datatype Measure = Measure(cls: int, max: real, mean: real)

  /** The measurement of one interval, with the speed converted to km/h. */
  function Measured(samples: seq<real>, row: Interval, fit: Fit, level: seq<real> -> real, log10: real -> real): (m: Measure)
    ensures -1 <= m.cls <= 2 && (m.cls == -1 <==> 3.6 * row.speed < 21.0)
  {
    var l := SegmentLevels(Segment(samples, row), level);
    Measure(AcousticClass(fit, 3.6 * row.speed, l.max, log10), l.max, l.mean)
  }

  /** The class is the one of the maximum level, and the mean is no louder. */
  lemma MeasuredFromMax(samples: seq<real>, row: Interval, fit: Fit, level: seq<real> -> real, log10: real -> real)
    ensures var m := Measured(samples, row, fit, level, log10);
      m.mean <= m.max && m.cls == AcousticClass(fit, 3.6 * row.speed, m.max, log10)
  {
    LevelsOrdered(Segment(samples, row), level);
  }

  /**
   * The body of the row loop: cut the segment, measure it whole or window
   * by window, and classify its loudest level at the speed in km/h.
   */
  method MeasureRow(samples: seq<real>, row: Interval, fit: Fit, level: seq<real> -> real, log10: real -> real)
    returns (m: Measure)
    ensures m == Measured(samples, row, fit, level, log10)
  {
    var segment := Segment(samples, row);
    var levels: Levels;
    if |segment| < Nfft {
      var spl := level(segment);
      levels := Levels(spl, spl);
    } else {
      var spl := MeasureWindows(segment, level);
      WindowsFit(|segment|, 0);
      levels := Levels(Mean(spl), Max(spl));
    }
    m := Measure(AcousticClass(fit, 3.6 * row.speed, levels.max, log10), levels.max, levels.mean);
  }
}
