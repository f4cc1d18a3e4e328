/**
 * The GPS side of the acquisition (`src/audio/gps.py`): reading NMEA 0183
 * sentences from the receiver, turning `$GPGGA` positions and `$GPRMC`
 * times into fixes, logging the raw sentences, waiting for a valid fix
 * before starting, and writing the rows of an interval file.
 *
 * The serial port becomes a sequence of received lines; `strptime`,
 * the two-hour shift and `strftime` become the parameter `stamp`.
 */
module Gps {
  import opened Base
  import opened Text
  import opened Numeric

  // ---------------------------------------------------------------- coordinates

  /**
   * `nmea_to_decimal` without the sign: the last seven characters are the
   * minutes (`mm.mmmm`), everything before them the whole degrees.
   */
  function Magnitude(coord: string): Result<real>
  {
    var cut := |coord| - 7;
    DegreesMinutes(PySlice(coord, 0, cut), PySlice(coord, cut, |coord|))
  }

  /**
   * The value of a coordinate split into its degrees and minutes texts:
   * degrees + minutes / 60, or `Err` where `int()` or `float()` raises.
   */
  function DegreesMinutes(degreesText: string, minutesText: string): Result<real>
  {
    match PyInt(degreesText)
    case None => Err("ValueError")
    case Some(degrees) =>
      match PyFloat(minutesText)
      case None => Err("ValueError")
      case Some(minutes) => Ok(DecimalDegrees(degrees, minutes))
  }

  /** Whole degrees plus minutes of arc; minutes under 60 stay within the degree. */
  function DecimalDegrees(degrees: int, minutes: real): (r: real)
    ensures 0.0 <= minutes < 60.0 ==> degrees as real <= r < degrees as real + 1.0
  {
    degrees as real + minutes / 60.0
  }

  predicate Southern(direction: string)
  {
    direction == "S" || direction == "W"
  }

  /** `nmea_to_decimal`: the magnitude, negated for `S` and `W`. */
  function NmeaToDecimal(coord: string, direction: string): Result<real>
  {
    match Magnitude(coord)
    case Err(e) => Err(e)
    case Ok(v) => Ok(Hemisphere(v, direction))
  }

  /** The signed value of a magnitude `v` in the hemisphere `direction`. */
  function Hemisphere(v: real, direction: string): real
  {
    if Southern(direction) then -v else v
  }

  /** The direction only decides the sign: `S` and `W` negate, anything else keeps it. */
  lemma NmeaDirection(coord: string, direction: string)
    ensures NmeaToDecimal(coord, direction).Ok? == NmeaToDecimal(coord, "N").Ok?
    ensures NmeaToDecimal(coord, direction).Ok? ==>
      NmeaToDecimal(coord, direction).value ==
        Hemisphere(NmeaToDecimal(coord, "N").value, direction)
  {
  }

  /** `n` written with exactly `width` digits, zero-padded on the left. */
  function Padded(n: nat, width: nat): (s: string)
    requires n < Pow10(width)
    ensures |s| == width && AllDigits(s)
  {
    if width == 0 then [] else Padded(n / 10, width - 1) + [DigitChar(n % 10)]
  }

  lemma {:induction false} PaddedValue(n: nat, width: nat)
    requires n < Pow10(width)
    ensures DigitsValue(Padded(n, width)) == n
    decreases width
  {
    if width > 0 {
      var s := Padded(n, width);
      PaddedValue(n / 10, width - 1);
      assert s[..|s| - 1] == Padded(n / 10, width - 1);
    }
  }

  /**
   * An NMEA coordinate `d` degrees and `m` ten-thousandths of a minute,
   * written as `dddmm.mmmm` with exactly four decimals.
   */
  function Coordinate(d: nat, m: nat): (s: string)
    requires m < 600000
    ensures |s| == |ShowNat(d)| + 7
  {
    ShowNat(d) + MinutesField(m)
  }

  /** The minutes `mm.mmmm` of a coordinate `m` ten-thousandths of a minute. */
  function MinutesField(m: nat): (s: string)
    requires m < 600000
    ensures |s| == 7
  {
    Padded(m / 10000, 2) + "." + Padded(m % 10000, 4)
  }

  /** Cutting seven characters from the end separates the degrees from the minutes. */
  lemma CoordinateFields(d: nat, m: nat)
    requires m < 600000
    ensures Magnitude(Coordinate(d, m)) == DegreesMinutes(ShowNat(d), MinutesField(m))
  {
    var s := Coordinate(d, m);
    assert PySlice(s, 0, |s| - 7) == ShowNat(d);
    assert PySlice(s, |s| - 7, |s|) == MinutesField(m);
  }

  /** Four fraction digits stand for their value in ten-thousandths. */
  lemma FourDecimals(s: string)
    requires AllDigits(s) && |s| == 4
    ensures Fraction(s) == DigitsValue(s) as real / 10000.0
  {
    assert s[1..][1..] == s[2..] && s[2..][1..] == s[3..] && s[3..][1..] == [];
    assert s[..3][..2] == s[..2] && s[..2][..1] == s[..1] && s[..1][..0] == [];
    var a, b, c, d := DigitValue(s[0]), DigitValue(s[1]), DigitValue(s[2]), DigitValue(s[3]);
    assert Fraction(s[3..]) == d as real / 10.0;
    assert Fraction(s[2..]) == (c as real + d as real / 10.0) / 10.0;
    assert DigitsValue(s[..2]) == a * 10 + b;
    assert DigitsValue(s) == ((a * 10 + b) * 10 + c) * 10 + d;
  }

  /** The minutes field `mm.mmmm` of a coordinate reads back as `m / 10000`. */
  lemma MinutesValue(m: nat)
    requires m < 600000
    ensures PyFloat(MinutesField(m)) == Some(m as real / 10000.0)
  {
    var ip := Padded(m / 10000, 2);
    var fp := Padded(m % 10000, 4);
    assert PyFloat(MinutesField(m)) == Some(DigitsValue(ip) as real + Fraction(fp)) by {
      assert MinutesField(m) == ip + "." + fp;
      PyFloatDecimal(ip, fp);
    }
    assert DigitsValue(ip) == m / 10000 by {
      PaddedValue(m / 10000, 2);
    }
    assert Fraction(fp) == (m % 10000) as real / 10000.0 by {
      PaddedValue(m % 10000, 4);
      FourDecimals(fp);
    }
    WholeAndFraction(m);
  }

  /** Ten-thousandths split into whole minutes and the rest. */
  lemma WholeAndFraction(m: nat)
    ensures (m / 10000) as real + (m % 10000) as real / 10000.0 == m as real / 10000.0
  {
    assert m == (m / 10000) * 10000 + m % 10000;
  }

  /**
   * Round trip: a coordinate written in the `ddmm.mmmm` format reads back as
   * its value in decimal degrees, with the sign of its hemisphere.
   */
  lemma NmeaToDecimalCoordinate(d: nat, m: nat, direction: string)
    requires m < 600000
    ensures NmeaToDecimal(Coordinate(d, m), direction) ==
      Ok(Hemisphere(DecimalDegrees(d, m as real / 10000.0), direction))
  {
    var minutes := m as real / 10000.0;
    var v := DecimalDegrees(d, minutes);
    PyIntShowNat(d);
    MinutesValue(m);
    assert PyInt(ShowNat(d)) == Some(d as int);
    assert PyFloat(MinutesField(m)) == Some(minutes);
    DegreesMinutesOf(ShowNat(d), MinutesField(m), d, minutes);
    CoordinateFields(d, m);
    assert Magnitude(Coordinate(d, m)) == Ok(v);
    NmeaToDecimalOf(Coordinate(d, m), direction, v);
  }

  /** A readable coordinate: `S` and `W` negate its magnitude, anything else keeps it. */
  lemma NmeaToDecimalOf(coord: string, direction: string, v: real)
    requires Magnitude(coord) == Ok(v)
    ensures NmeaToDecimal(coord, direction) == Ok(Hemisphere(v, direction))
  {
  }

  /** Both fields readable: the value is degrees plus a sixtieth of the minutes. */
  lemma DegreesMinutesOf(degreesText: string, minutesText: string, degrees: int, minutes: real)
    requires PyInt(degreesText) == Some(degrees)
    requires PyFloat(minutesText) == Some(minutes)
    ensures DegreesMinutes(degreesText, minutesText) == Ok(DecimalDegrees(degrees, minutes))
  {
  }

  // ---------------------------------------------------------------- sentences

  /** What one sentence contributes: a position (`$GPGGA`) or a time (`$GPRMC`). */
  datatype Reading = Position(latitude: real, longitude: real) | Clock(time: string)

  /**
   * `parse_nmea`. `stamp(date + hhmmss)` stands for `strptime` with
   * `%d%m%y%H%M%S`, the two-hour shift and `strftime`; `None` where
   * `strptime` raises.
   */
  function ParseNmea(sentence: string, stamp: string -> Option<string>): (r: Option<Reading>)
    ensures r.Some? && r.value.Position? ==>
      var f := Split(sentence, ',');
      StartsWith(sentence, "$GPGGA") && |f| > 5 && f[2] != [] && f[4] != []
    ensures r.Some? && r.value.Clock? ==>
      var f := Split(sentence, ',');
      StartsWith(sentence, "$GPRMC") && |f| > 9 && f[1] != [] && f[9] != []
  {
    var f := Split(sentence, ',');
    if StartsWith(sentence, "$GPGGA") then
      if |f| > 5 && f[2] != [] && f[4] != [] then
        match (NmeaToDecimal(f[2], f[3]), NmeaToDecimal(f[4], f[5]))
        case (Ok(lat), Ok(lon)) => Some(Position(lat, lon))
        case _ => None
      else None
    else if StartsWith(sentence, "$GPRMC") then
      if |f| > 9 && f[1] != [] && f[9] != [] then
        match stamp(f[9] + BeforeFirst(f[1], "."))
        case Some(t) => Some(Clock(t))
        case None => None
      else None
    else None
  }

  /** A `$GPGGA` sentence with both coordinates present yields exactly their decimal values. */
  lemma ParseGga(sentence: string, stamp: string -> Option<string>)
    requires StartsWith(sentence, "$GPGGA")
    requires var f := Split(sentence, ','); |f| > 5 && f[2] != [] && f[4] != []
    ensures var f := Split(sentence, ',');
      var lat := NmeaToDecimal(f[2], f[3]);
      var lon := NmeaToDecimal(f[4], f[5]);
      ParseNmea(sentence, stamp) == if lat.Ok? && lon.Ok? then Some(Position(lat.value, lon.value)) else None
  {
  }

  /** A `$GPRMC` time carries no fractional seconds: `hhmmss.sss` is read as `hhmmss`. */
  lemma ParseRmcDropsFraction(sentence: string, stamp: string -> Option<string>, hhmmss: string, fraction: string)
    requires StartsWith(sentence, "$GPRMC")
    requires var f := Split(sentence, ','); |f| > 9 && f[9] != [] && f[1] == hhmmss + "." + fraction
    requires forall j :: 0 <= j < |hhmmss| ==> hhmmss[j] != '.'
    ensures var f := Split(sentence, ',');
      ParseNmea(sentence, stamp) == match stamp(f[9] + hhmmss) case Some(t) => Some(Clock(t)) case None => None
  {
    var t := hhmmss + "." + fraction;
    assert OccursAt(t, ".", |hhmmss|);
    forall j | 0 <= j < |hhmmss|
      ensures !OccursAt(t, ".", j)
    {
      assert t[j] == hhmmss[j];
    }
    assert Find(t, ".") == Some(|hhmmss|);
    assert BeforeFirst(t, ".") == hhmmss;
  }

  /** Any sentence that is neither `$GPGGA` nor `$GPRMC` yields nothing. */
  lemma ParseOther(sentence: string, stamp: string -> Option<string>)
    requires !StartsWith(sentence, "$GPGGA") && !StartsWith(sentence, "$GPRMC")
    ensures ParseNmea(sentence, stamp).None?
  {
  }

  // ---------------------------------------------------------------- merging into fixes

  /** The `temp_data` dictionary: each key present or absent. */
  datatype Pending = Pending(time: Option<string>, latitude: Option<real>, longitude: Option<real>)

  const NoData := Pending(None, None, None)

  /** A record put on the data queue. */
  datatype Fix = Fix(time: string, latitude: real, longitude: real)

  /** `temp_data.update(parsed_data)` */
  function Update(p: Pending, r: Reading): (q: Pending)
    ensures r.Clock? ==> q.time == Some(r.time) && q.latitude == p.latitude && q.longitude == p.longitude
    ensures r.Position? ==> q.time == p.time && q.latitude == Some(r.latitude) && q.longitude == Some(r.longitude)
  {
    match r
    case Position(lat, lon) => p.(latitude := Some(lat), longitude := Some(lon))
    case Clock(t) => p.(time := Some(t))
  }

  predicate Complete(p: Pending)
  {
    p.time.Some? && p.latitude.Some? && p.longitude.Some?
  }

  /** What the collector has gathered: the pending record and the fixes queued. */
  datatype Collected = Collected(pending: Pending, fixes: seq<Fix>)

  /** What `parse_nmea` makes of each received line, in order. */
  function Readings(lines: seq<string>, stamp: string -> Option<string>): (r: seq<Option<Reading>>)
    ensures |r| == |lines| && forall j :: 0 <= j < |lines| ==> r[j] == ParseNmea(lines[j], stamp)
  {
    seq(|lines|, j requires 0 <= j < |lines| => ParseNmea(lines[j], stamp))
  }

  /** One parsed line: merge what it says and queue a fix once all three keys are present. */
  function Absorb(c: Collected, reading: Option<Reading>): Collected
  {
    match reading
    case None => c
    case Some(r) =>
      var p := Update(c.pending, r);
      if Complete(p) then Collected(NoData, c.fixes + [Fix(p.time.value, p.latitude.value, p.longitude.value)])
      else Collected(p, c.fixes)
  }

  /** The collector after a run of parsed lines, from an empty record and queue. */
  function CollectAll(readings: seq<Option<Reading>>): Collected
    decreases |readings|
  {
    if readings == [] then Collected(NoData, [])
    else Absorb(CollectAll(readings[..|readings| - 1]), readings[|readings| - 1])
  }

  /** Lines whose sentence yields a time. */
  function Clocks(readings: seq<Option<Reading>>): nat
    decreases |readings|
  {
    if readings == [] then 0
    else
      var r := readings[|readings| - 1];
      Clocks(readings[..|readings| - 1]) + (if r.Some? && r.value.Clock? then 1 else 0)
  }

  /** Lines whose sentence yields a position. */
  function Positions(readings: seq<Option<Reading>>): nat
    decreases |readings|
  {
    if readings == [] then 0
    else
      var r := readings[|readings| - 1];
      Positions(readings[..|readings| - 1]) + (if r.Some? && r.value.Position? then 1 else 0)
  }

  /**
   * The pending record is never complete between lines (a complete one is
   * queued and cleared at once), and every queued fix used up a time
   * sentence and a position sentence of its own: there are no more fixes
   * than time sentences, nor than position sentences.
   */
  lemma {:induction false} CollectAllBounds(readings: seq<Option<Reading>>)
    ensures !Complete(CollectAll(readings).pending)
    ensures var c := CollectAll(readings);
      |c.fixes| + (if c.pending.time.Some? then 1 else 0) <= Clocks(readings)
    ensures var c := CollectAll(readings);
      |c.fixes| + (if c.pending.latitude.Some? then 1 else 0) <= Positions(readings)
    decreases |readings|
  {
    if readings != [] {
      CollectAllBounds(readings[..|readings| - 1]);
    }
  }

  /** Lines that say nothing recognisable leave the collector unchanged. */
  lemma CollectIgnored(c: Collected, line: string, stamp: string -> Option<string>)
    requires !StartsWith(line, "$GPGGA") && !StartsWith(line, "$GPRMC")
    ensures Absorb(c, ParseNmea(line, stamp)) == c
  {
    ParseOther(line, stamp);
  }

  /** A line's effect does not depend on the fixes already queued: it only appends. */
  lemma AbsorbAppends(c: Collected, reading: Option<Reading>)
    ensures var d := Absorb(Collected(c.pending, []), reading);
      Absorb(c, reading) == Collected(d.pending, c.fixes + d.fixes)
  {
  }

  /** Fixes are only ever appended: earlier fixes are never changed. */
  lemma {:induction false} CollectAllPrefix(readings: seq<Option<Reading>>, n: nat)
    requires n <= |readings|
    ensures CollectAll(readings[..n]).fixes <= CollectAll(readings).fixes
    decreases |readings| - n
  {
    if n < |readings| {
      CollectAllPrefix(readings, n + 1);
      assert readings[..n + 1][..n] == readings[..n];
      AbsorbAppends(CollectAll(readings[..n]), readings[n]);
    } else {
      assert readings[..n] == readings;
    }
  }

  // ---------------------------------------------------------------- the raw log

  const BufferSize: nat := 10

  /** The log file's text for `lines`: each line followed by `\n`. */
  function LogText(lines: seq<string>): string
    decreases |lines|
  {
    if lines == [] then [] else lines[0] + "\n" + LogText(lines[1..])
  }

  lemma {:induction false} LogTextAppend(a: seq<string>, b: seq<string>)
    ensures LogText(a + b) == LogText(a) + LogText(b)
    decreases |a|
  {
    if a == [] {
      assert a + b == b;
    } else {
      assert (a + b)[1..] == a[1..] + b;
      LogTextAppend(a[1..], b);
      Associative(a[0] + "\n", LogText(a[1..]), LogText(b));
    }
  }

  /** One write of the buffer, `b"\n".join(buffer) + b"\n"`, is the log text of the buffered lines. */
  lemma {:induction false} JoinLogText(lines: seq<string>)
    requires |lines| > 0
    ensures Join(lines, "\n") + "\n" == LogText(lines)
    decreases |lines|
  {
    if |lines| > 1 {
      JoinLogText(lines[1..]);
      Associative(lines[0] + "\n", Join(lines[1..], "\n"), "\n");
    }
  }

  /** The lines as the collector reads them: stripped. */
  function Stripped(raw: seq<string>): (r: seq<string>)
    ensures |r| == |raw| && forall i :: 0 <= i < |raw| ==> r[i] == Strip(raw[i])
  {
    seq(|raw|, i requires 0 <= i < |raw| => Strip(raw[i]))
  }

  // ---------------------------------------------------------------- the fix wait

  /** The line `start` waits for: a `$GPRMC` sentence whose status field is `A`. */
  predicate IsValidFix(line: string)
  {
    StartsWith(line, "$GPRMC") && |Split(line, ',')| > 2 && Split(line, ',')[2] == "A"
  }

  /** A line as received from the serial port that, stripped, is a valid fix. */
  predicate ValidFixLine(raw: string)
  {
    IsValidFix(Strip(raw))
  }

  // ---------------------------------------------------------------- interval files

  /** One point of a resampled interval: time in nanoseconds, position and speed. */
  datatype Point = Point(time: int, latitude: real, longitude: real, speed: real)

  datatype IntervalRow = IntervalRow(start: int, end: int, latitudeStart: real, latitudeEnd: real,
                                     longitudeStart: real, longitudeEnd: real, velocity: real)

  datatype IntervalCsv = IntervalCsv(header: seq<string>, rows: seq<IntervalRow>)

  const IntervalHeader: seq<string> :=
    ["Start", "End", "Latitude_inizio", "Latitude_fine", "Longitude_inizio", "Longitude_fine", "Velocità"]

  /** The speed of a segment: the next speed when the current one is not positive, else the mean. */
  function Velocity(a: Point, b: Point): (v: real)
    ensures a.speed <= 0.0 ==> v == b.speed
    ensures a.speed > 0.0 ==> (a.speed <= v <= b.speed || b.speed <= v <= a.speed)
    ensures a.speed > 0.0 ==> v - a.speed == b.speed - v
  {
    if a.speed <= 0.0 then b.speed else (a.speed + b.speed) / 2.0
  }

  /** The row for the segment from `a` to `b`. */
  function Segment(a: Point, b: Point): IntervalRow
  {
    IntervalRow(a.time, b.time, a.latitude, b.latitude, a.longitude, b.longitude, Velocity(a, b))
  }

  /** `intervallo_<k>.csv` */
  function IntervalName(k: nat): string
  {
    "intervallo_" + ShowNat(k) + ".csv"
  }

  lemma IntervalNameInjective(m: nat, n: nat)
    requires IntervalName(m) == IntervalName(n)
    ensures m == n
  {
    var a := IntervalName(m);
    var b := IntervalName(n);
    assert ShowNat(m) == a[11..|a| - 4];
    assert ShowNat(n) == b[11..|b| - 4];
    DigitsValueShowNat(m);
    DigitsValueShowNat(n);
  }

  function IntervalNames(a: nat, b: nat): set<string>
  {
    set k | a <= k < b :: IntervalName(k)
  }

  lemma {:induction false} IntervalNamesSize(a: nat, b: nat)
    requires a <= b
    ensures |IntervalNames(a, b)| == b - a
    decreases b - a
  {
    if a < b {
      var earlier := IntervalNames(a, b - 1);
      var last := IntervalName(b - 1);
      IntervalNamesSize(a, b - 1);
      assert last !in earlier by {
        if last in earlier {
          var k :| a <= k < b - 1 && IntervalName(k) == last;
          IntervalNameInjective(k, b - 1);
        }
      }
      assert IntervalNames(a, b) == earlier + {last};
      assert |earlier + {last}| == |earlier| + 1;
    }
  }

  /** A folder holding `intervallo_a` … `intervallo_<b-1>` holds at least `b - a` files. */
  lemma NamesTaken<V>(files: map<string, V>, a: nat, b: nat)
    requires a <= b
    requires forall k :: a <= k < b ==> IntervalName(k) in files
    ensures b - a <= |files|
  {
    var names := IntervalNames(a, b);
    IntervalNamesSize(a, b);
    assert names <= files.Keys;
    assert files.Keys == names + (files.Keys - names);
  }

  // ---------------------------------------------------------------- the GPS object

  class Gps {
    /** Fixes handed to the saver. */
    var dataQueue: seq<Fix>
    /** Contents of the raw NMEA log file. */
    var nmeaLog: string
    /** `self.interval_counter` */
    var intervalCounter: nat
    /** The interval folder: file name to contents. */
    var intervals: map<string, IntervalCsv>

    constructor ()
      ensures dataQueue == [] && nmeaLog == [] && intervalCounter == 1 && intervals == map[]
    {
      dataQueue := [];
      nmeaLog := [];
      intervalCounter := 1;
      intervals := map[];
    }

    /**
     * The wait in `start`: read lines until one is a valid fix. Returns the
     * index of the first valid fix among the stripped lines, or `None` if the
     * lines run out first (the source would go on reading).
     */
    method WaitForFix(raw: seq<string>) returns (r: Option<nat>)
      ensures r.Some? ==> r.value < |raw| && ValidFixLine(raw[r.value])
      ensures r.Some? ==> forall j :: 0 <= j < r.value ==> !ValidFixLine(raw[j])
      ensures r.None? ==> forall j :: 0 <= j < |raw| ==> !ValidFixLine(raw[j])
    {
      var present := false;
      var i := 0;
      while !present && i < |raw|
        invariant 0 <= i <= |raw|
        invariant forall j :: 0 <= j < i - 1 ==> !ValidFixLine(raw[j])
        invariant present <==> i > 0 && ValidFixLine(raw[i - 1])
        invariant !present ==> forall j :: 0 <= j < i ==> !ValidFixLine(raw[j])
      {
        var line := Strip(raw[i]);
        if StartsWith(line, "$GPRMC") {
          var fields := Split(line, ',');
          if |fields| > 2 && fields[2] == "A" {
            present := true;
          }
        }
        i := i + 1;
      }
      if present {
        r := Some(i - 1);
      } else {
        r := None;
      }
    }

    /**
     * `gps_collector`, run over the lines `raw` read before the stop event:
     * every stripped line is appended to the log, in batches of ten and the
     * remainder on stop, and every completed record is queued.
     */
    method Collect(raw: seq<string>, stamp: string -> Option<string>)
      modifies this`dataQueue, this`nmeaLog
      ensures nmeaLog == old(nmeaLog) + LogText(Stripped(raw))
      ensures dataQueue == old(dataQueue) + CollectAll(Readings(Stripped(raw), stamp)).fixes
    {
      var temp := NoData;
      var buffer: seq<string> := [];
      ghost var lines := Stripped(raw);
      ghost var readings := Readings(lines, stamp);
      var i := 0;
      assert lines[..0] == [];
      while i < |raw|
        invariant 0 <= i <= |raw|
        invariant readings == Readings(lines, stamp)
        invariant Logged(old(nmeaLog), nmeaLog, lines, i, buffer)
        invariant Gathered(old(dataQueue), dataQueue, temp, readings, i)
      {
        var line := Strip(raw[i]);
        assert line == lines[i];
        nmeaLog, buffer := Buffer(nmeaLog, buffer, line, old(nmeaLog), lines, i);
        dataQueue, temp := Gather(dataQueue, temp, line, stamp, old(dataQueue), lines, readings, i);
        i := i + 1;
      }
      if |buffer| > 0 {
        LogRest(old(nmeaLog), nmeaLog, lines, i, buffer);
        nmeaLog := nmeaLog + (Join(buffer, "\n") + "\n");
      } else {
        LogDone(old(nmeaLog), nmeaLog, lines, i);
      }
      GatherEnd(old(dataQueue), dataQueue, temp, readings, i);
    }

    /** Buffering one line, and appending the buffer to the log once it holds ten. */
    static method Buffer(log: string, buffer: seq<string>, line: string,
                         ghost log0: string, ghost lines: seq<string>, ghost i: nat)
      returns (log': string, buffer': seq<string>)
      requires Logged(log0, log, lines, i, buffer) && i < |lines| && line == lines[i]
      ensures Logged(log0, log', lines, i + 1, buffer')
    {
      LogStep(log0, log, lines, i, buffer);
      log', buffer' := log, buffer + [line];
      if |buffer'| >= BufferSize {
        log' := log' + (Join(buffer', "\n") + "\n");
        buffer' := [];
      }
    }

    /** Parsing one line, merging it into `temp` and queueing the fix it completes. */
    static method Gather(queue: seq<Fix>, temp: Pending, line: string, stamp: string -> Option<string>,
                         ghost q0: seq<Fix>, ghost lines: seq<string>, ghost readings: seq<Option<Reading>>,
                         ghost i: nat)
      returns (queue': seq<Fix>, temp': Pending)
      requires i < |lines| && line == lines[i] && readings == Readings(lines, stamp)
      requires Gathered(q0, queue, temp, readings, i)
      ensures Gathered(q0, queue', temp', readings, i + 1)
    {
      var parsed := ParseNmea(line, stamp);
      assert parsed == readings[i];
      GatherStep(q0, queue, temp, readings, i);
      var fix;
      temp', fix := Merge(temp, parsed);
      queue' := queue;
      if fix.Some? {
        queue' := queue' + [fix.value];
      }
    }

    /**
     * One parsed line merged into the pending record `temp`: the record
     * afterwards and the fix it completes, if any.
     */
    static method Merge(temp: Pending, parsed: Option<Reading>) returns (next: Pending, fix: Option<Fix>)
      ensures Absorb(Collected(temp, []), parsed) == Collected(next, if fix.Some? then [fix.value] else [])
    {
      next, fix := temp, None;
      if parsed.Some? {
        next := Update(temp, parsed.value);
        if Complete(next) {
          fix := Some(Fix(next.time.value, next.latitude.value, next.longitude.value));
          next := NoData;
        }
      }
    }

    /**
     * `_write_interval_csv`: take the first `intervallo_<k>.csv` not yet in
     * the folder, from the current counter on, and write one row per pair of
     * consecutive points. The counter stays on the name just used.
     */
    method WriteIntervalCsv(points: seq<Point>)
      modifies this`intervalCounter, this`intervals
      ensures old(intervalCounter) <= intervalCounter
      ensures forall k :: old(intervalCounter) <= k < intervalCounter ==> IntervalName(k) in old(intervals)
      ensures IntervalName(intervalCounter) !in old(intervals)
      ensures IntervalName(intervalCounter) in intervals
      ensures intervals[IntervalName(intervalCounter)].header == IntervalHeader
      ensures var rows := intervals[IntervalName(intervalCounter)].rows;
        && |rows| == (if |points| == 0 then 0 else |points| - 1)
        && forall i :: 0 <= i < |rows| ==> rows[i] == Segment(points[i], points[i + 1])
      ensures forall name :: name != IntervalName(intervalCounter) ==>
        (name in intervals <==> name in old(intervals)) && (name in intervals ==> intervals[name] == old(intervals)[name])
    {
      ghost var first := intervalCounter;
      while IntervalName(intervalCounter) in intervals
        invariant intervals == old(intervals)
        invariant first <= intervalCounter <= first + |intervals|
        invariant forall k :: first <= k < intervalCounter ==> IntervalName(k) in intervals
        decreases first + |intervals| - intervalCounter
      {
        NamesTaken(intervals, first, intervalCounter + 1);
        intervalCounter := intervalCounter + 1;
      }
      var rows: seq<IntervalRow> := [];
      var i := 0;
      while i + 1 < |points|
        invariant intervals == old(intervals) && IntervalName(intervalCounter) !in intervals
        invariant 0 <= i <= (if |points| == 0 then 0 else |points| - 1)
        invariant |rows| == i
        invariant forall j :: 0 <= j < i ==> rows[j] == Segment(points[j], points[j + 1])
      {
        var velocity;
        if points[i].speed <= 0.0 {
          velocity := points[i + 1].speed;
        } else {
          velocity := (points[i].speed + points[i + 1].speed) / 2.0;
        }
        rows := rows + [IntervalRow(points[i].time, points[i + 1].time, points[i].latitude, points[i + 1].latitude,
                                    points[i].longitude, points[i + 1].longitude, velocity)];
        i := i + 1;
      }
      intervals := intervals[IntervalName(intervalCounter) := IntervalCsv(IntervalHeader, rows)];
    }
  }

  /**
   * The log after the first `i` lines: everything before the buffer is in the
   * log, and the buffer holds the lines since the last full batch of ten.
   */
  ghost predicate Logged(log0: string, log: string, lines: seq<string>, i: nat, buffer: seq<string>)
  {
    && i <= |lines|
    && |buffer| < BufferSize && |buffer| <= i
    && buffer == lines[i - |buffer|..i]
    && log == log0 + LogText(lines[..i - |buffer|])
  }

  /** Buffering line `i`, and writing the buffer out when it reaches ten lines. */
  lemma LogStep(log0: string, log: string, lines: seq<string>, i: nat, buffer: seq<string>)
    requires Logged(log0, log, lines, i, buffer) && i < |lines|
    ensures var b := buffer + [lines[i]];
      if |b| >= BufferSize then Logged(log0, log + (Join(b, "\n") + "\n"), lines, i + 1, [])
      else Logged(log0, log, lines, i + 1, b)
  {
    var b := buffer + [lines[i]];
    assert b == lines[i + 1 - |b|..i + 1];
    if |b| >= BufferSize {
      Flush(lines, i + 1, b);
      Associative(log0, LogText(lines[..i + 1 - |b|]), Join(b, "\n") + "\n");
    }
  }

  /** Writing out what is left in the buffer at the stop completes the log. */
  lemma LogRest(log0: string, log: string, lines: seq<string>, i: nat, buffer: seq<string>)
    requires i == |lines| && Logged(log0, log, lines, i, buffer) && |buffer| > 0
    ensures log + (Join(buffer, "\n") + "\n") == log0 + LogText(lines)
  {
    Flush(lines, |lines|, buffer);
    assert lines[..|lines|] == lines;
    Associative(log0, LogText(lines[..|lines| - |buffer|]), Join(buffer, "\n") + "\n");
  }

  /** With nothing left in the buffer at the stop, the log is already complete. */
  lemma LogDone(log0: string, log: string, lines: seq<string>, i: nat)
    requires i == |lines| && Logged(log0, log, lines, i, [])
    ensures log == log0 + LogText(lines)
  {
    assert lines[..|lines|] == lines;
  }

  /** The collector after the first `i` lines: the pending record and the queue. */
  ghost predicate Gathered(q0: seq<Fix>, q: seq<Fix>, temp: Pending, readings: seq<Option<Reading>>, i: nat)
  {
    && i <= |readings|
    && temp == CollectAll(readings[..i]).pending
    && q == q0 + CollectAll(readings[..i]).fixes
  }

  /** Collecting one more line only appends to the queue what it completes. */
  lemma GatherStep(q0: seq<Fix>, q: seq<Fix>, temp: Pending, readings: seq<Option<Reading>>, i: nat)
    requires Gathered(q0, q, temp, readings, i) && i < |readings|
    ensures var c := Absorb(Collected(temp, []), readings[i]);
      Gathered(q0, q + c.fixes, c.pending, readings, i + 1)
  {
    assert readings[..i + 1][..i] == readings[..i];
    AbsorbAppends(CollectAll(readings[..i]), readings[i]);
  }

  lemma GatherEnd(q0: seq<Fix>, q: seq<Fix>, temp: Pending, readings: seq<Option<Reading>>, i: nat)
    requires i == |readings| && Gathered(q0, q, temp, readings, i)
    ensures q == q0 + CollectAll(readings).fixes
  {
    assert readings[..|readings|] == readings;
  }

  /** Writing out a full buffer, or the remainder, moves its lines into the log text. */
  lemma Flush(lines: seq<string>, i: nat, buffer: seq<string>)
    requires |buffer| <= i <= |lines| && |buffer| > 0
    requires buffer == lines[i - |buffer|..i]
    ensures LogText(lines[..i - |buffer|]) + (Join(buffer, "\n") + "\n") == LogText(lines[..i])
  {
    JoinLogText(buffer);
    assert lines[..i] == lines[..i - |buffer|] + buffer;
    LogTextAppend(lines[..i - |buffer|], buffer);
  }
}
