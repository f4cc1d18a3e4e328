# Road-survey pipeline: a Dafny model of the host-side processing

The system surveys a road with a vehicle. It carries an acoustic
acquisition node (a tyre-cavity microphone sampled at 8192 Hz), a GPS
receiver and a camera. Python programs on the host do the following:

- download the node's recording and cut it into numbered sample files
  (`src/audio/ESP32.py`);
- read NMEA 0183 sentences from the GPS receiver and write interval files
  (`src/audio/gps.py`);
- classify every road interval acoustically from its loudest
  low-frequency level (`src/audio/Classificazione_tcn.py`, a batch
  script, and `Audio/Classificazione_tcn.py`, an incremental class);
- choose video frames by distance covered, cut them and group them per
  interval (`src/video/VIDEO.py`, `Video/utils/displacement_functions.py`);
- filter and write the detector's boxes as YOLO label files
  (`Video/utils_filters.py`, `src/video/MODELS.py`, `Video/MODELS.py`);
- count each detection into lane-zone damage counters (`src/video/INDEX.py`);
- turn the damage counts and the acoustic class into a road-condition
  index from 0 to 3 (`src/video/PROCESSOR.py`, `Video/PROCESSOR.py`).

This project models that logic in Dafny and proves what the code promises
about it. Each module follows one source file or one pair of copies:

| module | models |
|---|---|
| `Esp32` (class `Receiver`) | the line and block parser of the download, and the three-block batching into numbered files |
| `Gps` (class `Gps`) | NMEA field extraction, `ddmm.mmmm` to degrees, the record merge, line buffering, the fix wait, interval rows |
| `Acoustic`, `AcousticRuns` (class `Classifier`) | the acoustic class, clock seconds, file keys, sample scaling, the window loop; the batch script and the incremental monitor and `analyze` threads |
| `Sampling` (class `FrameSampler`), `Extraction`, `FrameNames`, `FrameFolders` | frame selection by displacement, walking the sampled indices across video files, crop squares, frame names, and `organizza_frames` |
| `Filters`, `Labels`, `LabelFiles`, `Format` | score filtering, box normalisation, pixel placement, label lines and files, and `.6f` rendering |
| `Damage`, `LaneIndex` | the twenty damage counters, box percentages over the lane mask, and the per-frame counting |
| `RoadIndex`, `Processor` | the index decision tables and colours, `process_intervallo` in both copies, and the result merge of `run` |
| `Base`, `Text`, `Numeric`, `Sorting` | `Result`/`Option`, Python string and number conversions, slicing, and `sorted` by key |

Code that changes state step by step is modelled with imperative Dafny:

- the download receiver, the GPS collector, the frame sampler and the
  acoustic classifier are classes;
- the loops are methods, each proved against a specification function.

Pure rules are functions with lemmas. Where the two copies of a file
differ, each copy is modelled, and a lemma states where they agree or
differ. `calcola_indice_per_riga` is the same table in
`Video/PROCESSOR.py` as in `src/video/PROCESSOR.py`, and `RoadIndex.PerRow`
models both copies. `get_color` has the same four colours in both, but the
`src/` copy truncates the index with `int()` before the lookup while the
`Video/` copy looks the value up as it is: `RoadIndex.ColorSrc` and
`RoadIndex.ColorVideo` model the two, and they agree on whole numbers only.

Where the two copies differ, the model follows the code. This includes
behaviour that no description of the system states: the `Video/` copy of
`process_intervallo` has its error paths, and the NaN handling of the two
frame samplers differs. Some values come from outside the model's reach:
the cubic spline, the band-pass filter and level, `log10`, and
`strptime` with its time shift. They enter as function parameters.
Floats are exact reals except where the source's float behaviour decides
a branch. One such case is the NaN running distance of the `Video/`
sampler, which has its own `Float` type.

## Model

| member | source | states |
|---|---|---|
| Esp32.FirstNewline | src/audio/ESP32.py:88-89 | the index `buffer.index(b'\n')` returns: a newline with none before it, or none when the buffer holds no newline |
| Esp32.Remainder | src/audio/ESP32.py:88-91 | what stays in the buffer once every complete line is cut off holds no newline |
| Esp32.LinesAppend | src/audio/ESP32.py:86-91 | a new chunk never changes the lines already complete: the lines of `a + c` are those of `a`, then those of `a`'s unfinished tail continued by `c` |
| Esp32.Decode | src/audio/ESP32.py:90 | `errors='ignore'` keeps only characters below 0x80, and a line of bytes all below 0x80 decodes to exactly those characters, one per byte |
| Esp32.DecodeAppend | src/audio/ESP32.py:90 | decoding works byte by byte: the decoding of two pieces joined is the two decodings joined |
| Esp32.Sample | src/audio/ESP32.py:105-111 | a line yields a sample exactly when its first character is `-` or a digit and `int()` accepts it, and the sample is the value `int()` gives |
| Esp32.FeedFinished | src/audio/ESP32.py:97-104 | one line ends the parse exactly when it is `.` |
| Esp32.FeedAllFinishedIff | src/audio/ESP32.py:97-104 | the parse of a sequence of lines has ended exactly when one of them is `.` |
| Esp32.FeedAllQueuedNonEmpty | src/audio/ESP32.py:93-99 | a blank line or `.` never queues an empty block |
| Esp32.FeedAllAccepted | src/audio/ESP32.py:93-111 | the queued blocks followed by the pending block are exactly the samples of the lines up to the first `.`, in order: nothing lost, nothing invented |
| Esp32.FeedAllFinished | src/audio/ESP32.py:97-104 | once `.` has been read, further lines change nothing |
| Esp32.FirstEmpty | src/audio/ESP32.py:83-85 | the first empty chunk (the peer closed): every chunk before it is non-empty |
| Esp32.OutcomeSpec | src/audio/ESP32.py:81-111 | the download keeps every sample of the complete lines received before `.`, in order, ends exactly when a `.` line arrives, and queues no empty block |
| Esp32.Drained | src/audio/ESP32.py:88 | when the buffer holds no newline, every complete line received has been handled |
| Esp32.FinishedHere | src/audio/ESP32.py:97-104 | when `.` is read inside a chunk, the chunks after it change nothing |
| Esp32.NonEmpty | src/audio/ESP32.py:42-44 | the queue elements kept are the non-empty ones, in order, and none is dropped when none is empty |
| Esp32.BlocksResampled | src/audio/ESP32.py:42-48 | the blocks the loop buffers are the resampled non-empty queue elements, in order |
| Esp32.Batches | src/audio/ESP32.py:50-56 | one batch per three blocks: a trailing group of fewer than three is never written |
| Esp32.BatchesSnoc | src/audio/ESP32.py:48-56 | a block completes a new batch exactly when it is the third of its group, and the batch is the group's three blocks concatenated |
| Esp32.BatchLength | src/audio/ESP32.py:50-54 | every batch file holds 3 × 8192 values |
| Esp32.BatchFileInjective | src/audio/ESP32.py:52 | different counters name different files |
| Esp32.FinalFileNotBatch | src/audio/ESP32.py:52 | no batch file is named `final_data.txt` |
| Esp32.WrittenFile | src/audio/ESP32.py:50-56 | the third block of a group writes the group under the counter, advances it and empties the buffer |
| Esp32.WriteBatchesHolds | src/audio/ESP32.py:52-55 | file `<counter + k>.txt` holds batch `k` |
| Esp32.WriteBatchesOthers | src/audio/ESP32.py:52-55 | every file that is not a batch name keeps its old content |
| Esp32.Receiver.constructor | src/audio/ESP32.py:17-19 | empty queue, counter 0, no file written |
| Esp32.Receiver.InterpolationAndWriting | src/audio/ESP32.py:38-59 | drains the queue; the counter advances by the number of complete batches, and file `counter + k` holds batch `k` of the resampled non-empty blocks |
| Esp32.Receiver.ResampleBlock | src/audio/ESP32.py:45-56 | one non-empty element: resampled into the buffer, the group written and the counter advanced when it is the third |
| Esp32.Receiver.Download | src/audio/ESP32.py:72-119 | queues exactly the blocks of the parse of the bytes received, a function of their concatenation only, so how the serial port cuts them into chunks does not matter; writes `final_data.txt` with the pending block exactly when `.` arrives; sends `r`, then `x` only when `.` never arrived |
| Esp32.Receiver.TakeLines | src/audio/ESP32.py:88-111 | handles every complete line in the buffer, in order, stopping at `.`; what is left holds no newline unless the parse ended |
| Esp32.Receiver.HandleLine | src/audio/ESP32.py:93-111 | one stripped line: queue and pending block change as one step of the parse, and `final_data.txt` is written exactly when the line is `.` |
| Gps.DecimalDegrees | src/audio/gps.py:292 | whole degrees plus minutes under 60 stay within that degree |
| Gps.NmeaDirection | src/audio/gps.py:289-296 | the direction never decides whether a coordinate can be read; `S` and `W` negate the value and any other direction keeps it |
| Gps.Padded | src/audio/gps.py:290-291 | the zero-padded text of `n` has exactly `width` characters, all of them digits |
| Gps.PaddedValue | src/audio/gps.py:290-291 | zero-padded digits read back as the number they were written from |
| Gps.Coordinate | src/audio/gps.py:290-291 | a `dddmm.mmmm` coordinate is its degrees' digits followed by seven characters of minutes |
| Gps.MinutesField | src/audio/gps.py:291 | the minutes field `mm.mmmm` is always seven characters long |
| Gps.CoordinateFields | src/audio/gps.py:290-291 | cutting seven characters from the end splits a coordinate into exactly its degrees text and its minutes text |
| Gps.FourDecimals | src/audio/gps.py:291 | four fraction digits stand for their value in ten-thousandths |
| Gps.MinutesValue | src/audio/gps.py:291 | `float()` reads the minutes field back as exactly `m / 10000` minutes |
| Gps.WholeAndFraction | src/audio/gps.py:291 | whole minutes plus the remaining ten-thousandths give back the minutes |
| Gps.NmeaToDecimalCoordinate | src/audio/gps.py:289-296 | round trip: a coordinate written in the NMEA format reads back as degrees plus a sixtieth of its minutes, negated in the southern and western hemispheres |
| Gps.NmeaToDecimalOf | src/audio/gps.py:294-296 | a readable coordinate keeps its magnitude, negated exactly for `S` and `W` |
| Gps.DegreesMinutesOf | src/audio/gps.py:290-292 | when both fields are readable the value is degrees plus a sixtieth of the minutes |
| Gps.ParseNmea | src/audio/gps.py:299-323 | a position only ever comes from a `$GPGGA` sentence with more than five fields and both coordinates present; a time only from a `$GPRMC` sentence with more than nine fields and both time and date present |
| Gps.ParseGga | src/audio/gps.py:301-306 | a complete `$GPGGA` sentence yields exactly the decimal values of its two coordinates, or nothing when one of them cannot be read |
| Gps.ParseRmcDropsFraction | src/audio/gps.py:308-320 | a `$GPRMC` time `hhmmss.sss` is stamped as `hhmmss` after the date: the fractional seconds are dropped |
| Gps.ParseOther | src/audio/gps.py:301-323 | a sentence that is neither `$GPGGA` nor `$GPRMC` yields nothing |
| Gps.Update | src/audio/gps.py:350 | a time reading replaces only the time, a position only latitude and longitude; the other keys keep their values |
| Gps.CollectAllBounds | src/audio/gps.py:348-353 | the pending record is never complete between lines, and the queued fixes plus the pending one never outnumber the time sentences, nor the position sentences |
| Gps.CollectIgnored | src/audio/gps.py:348-349 | a line that is not a GGA or RMC sentence leaves the pending record and the queue unchanged |
| Gps.AbsorbAppends | src/audio/gps.py:349-353 | a line only appends to the queue: its effect does not depend on the fixes already queued |
| Gps.CollectAllPrefix | src/audio/gps.py:338-353 | the fixes queued after any prefix of the lines are a prefix of those queued after all of them |
| Gps.LogTextAppend | src/audio/gps.py:341-346 | the log text of two runs of lines is the log text of the first followed by that of the second |
| Gps.JoinLogText | src/audio/gps.py:345 | one write of the buffer, joined with newlines plus a final newline, is each buffered line followed by a newline |
| Gps.Velocity | src/audio/gps.py:181-184 | a segment's speed is the next point's speed when the current one is not positive, otherwise the midpoint of the two |
| Gps.IntervalNameInjective | src/audio/gps.py:174 | different counters name different `intervallo_<k>.csv` files |
| Gps.IntervalNamesSize | src/audio/gps.py:173-177 | the names from counter `a` to `b` are `b - a` distinct files |
| Gps.NamesTaken | src/audio/gps.py:173-177 | the counter can only pass as many names as the folder holds files, so the search for a free name ends |
| Gps.Gps.constructor | src/audio/gps.py:20-39 | a new GPS starts with an empty queue, an empty NMEA log, no interval files and the interval counter at 1 |
| Gps.Gps.WaitForFix | src/audio/gps.py:49-57 | the wait stops at the first line that is a `$GPRMC` sentence with status `A`, and keeps waiting when there is none |
| Gps.Gps.Collect | src/audio/gps.py:333-359 | the log gains every stripped line, each followed by a newline, whether written in a batch of ten or at the stop; the queue gains exactly the fixes the collector completes, in order |
| Gps.Gps.WriteIntervalCsv | src/audio/gps.py:172-194 | the counter moves past every name already taken to the first free one, which gets the header and one row per pair of consecutive points; no other file changes |
| Gps.LogStep | src/audio/gps.py:341-346 | buffering one more line, and writing the buffer out once it holds ten, keeps the log equal to the lines read so far minus those still buffered |
| Gps.LogRest | src/audio/gps.py:357-359 | writing out what is left in the buffer at the stop completes the log |
| Gps.LogDone | src/audio/gps.py:357 | with an empty buffer at the stop the log is already complete |
| Gps.GatherStep | src/audio/gps.py:348-353 | collecting one more line appends to the queue exactly what that line completes |
| Gps.GatherEnd | src/audio/gps.py:338-353 | after the last line the queue holds exactly the fixes of all lines |
| Gps.Flush | src/audio/gps.py:343-346 | writing out the buffer moves exactly its lines into the log text |
| Acoustic.AcousticClass | Audio/Classificazione_tcn.py:224-242 | the class is one of -1, 0, 1, 2, and it is -1 exactly when the speed is under 21 km/h |
| Acoustic.ClassBands | src/audio/Classificazione_tcn.py:156-169 | from 21 km/h on, the class is 0, 1 or 2 exactly when the level's excess over the fitted `a·log10(v) + b` is under 2 dB, between 2 and 4 dB, or over 4 dB |
| Acoustic.ClassMonotone | Audio/Classificazione_tcn.py:224-242 | at one speed a louder level never gets a lower class |
| Acoustic.ClockFields | Audio/Classificazione_tcn.py:193-206 | the time gives seconds exactly when there are at least two fields and the first, second and last are numbers; it raises `IndexError` exactly when there is no field, or one field that is a number (the first field is read before the second is looked for), and `ValueError` otherwise |
| Acoustic.ClockFieldsOf | Audio/Classificazione_tcn.py:198-204 | with at least two fields, the seconds are the first field times 3600, plus the second times 60, plus the last |
| Acoustic.ClockWithoutColon | Audio/Classificazione_tcn.py:193-206 | a time with no `:` raises `ValueError` when it is not a number and `IndexError` when it is |
| Acoustic.ClockOfFields | Audio/Classificazione_tcn.py:193-206 | `date hh:mm:ss` reads as `hh·3600 + mm·60 + ss`, whatever the date is |
| Acoustic.ClockOfTime | src/audio/Classificazione_tcn.py:105-118 | a timestamp written with decimal numbers `h:m:s` reads as `h·3600 + m·60 + s` seconds |
| Acoustic.ClockOfTwoFields | Audio/Classificazione_tcn.py:200-202 | a time with only two fields takes its seconds from the last field, which is the minutes again |
| Acoustic.ClockTwoFields | Audio/Classificazione_tcn.py:200-204 | `h:m` reads as `h·3600 + m·60 + m` seconds |
| Acoustic.ClockIgnoresDate | Audio/Classificazione_tcn.py:196-198 | two timestamps with the same clock time on different dates read as the same seconds, so a run past midnight is not followed |
| Acoustic.CsvAtEnd | src/audio/Classificazione_tcn.py:69 | splitting `prefix_digits.csv` at `.csv` gives back `prefix_digits` when the prefix holds no `.csv` |
| Acoustic.AfterLastUnderscore | src/audio/Classificazione_tcn.py:69 | the text after the last `_` of `prefix_d` is `d` when `d` holds no `_` |
| Acoustic.GpsIndexOfName | Audio/Classificazione_tcn.py:210-214 | the sort key of a GPS file named `prefix_n.csv` is `n` |
| Acoustic.TcnIndexOfName | src/audio/Classificazione_tcn.py:76-80 | the sort key of a sample file named `n.txt` is `n` |
| Acoustic.Scaled | Audio/Classificazione_tcn.py:119-121 | every sample is its 24-bit code divided by `2^23 - 1`, and none is lost or added |
| Acoustic.ScaledRange | Audio/Classificazione_tcn.py:121 | codes from `-(2^23 - 1)` to `2^23 - 1` scale into [-1, 1]; the code `-2^23` lands just below -1 |
| Acoustic.ReadyAgree | Audio/Classificazione_tcn.py:154-155 | for an interval that does not end before the first start, the class's test on the truncated end index agrees with the script's test on the exact end |
| Acoustic.ReadySegment | Audio/Classificazione_tcn.py:151-157 | a ready interval that starts at or after the first start is cut out whole, from its start index to its end index |
| Acoustic.WindowsFit | src/audio/Classificazione_tcn.py:191 | window `k` exists exactly when a 2048-sample window at `1024·k` fits in the segment |
| Acoustic.WindowLevels | Audio/Classificazione_tcn.py:168-171 | a long segment yields one level per window that fits |
| Acoustic.MeasureWindows | Audio/Classificazione_tcn.py:167-171 | the window loop computes the level of every window, in order |
| Acoustic.Max | Audio/Classificazione_tcn.py:174 | the maximum is one of the levels and no level exceeds it |
| Acoustic.SumAtMost | Audio/Classificazione_tcn.py:173 | a sum of values all at most `m` is at most `m` times their number |
| Acoustic.MeanAtMostMax | Audio/Classificazione_tcn.py:173-174 | the mean level never exceeds the maximum level |
| Acoustic.LevelsOrdered | src/audio/Classificazione_tcn.py:179-197 | a short segment's mean and maximum are its one level; a long one's maximum is the level of one of its windows and is reached by no louder window; the mean is never above the maximum |
| Acoustic.Measured | Audio/Classificazione_tcn.py:159-180 | an interval's class is one of -1, 0, 1, 2, and it is -1 exactly when its speed, converted to km/h, is under 21 |
| Acoustic.MeasuredFromMax | Audio/Classificazione_tcn.py:175-178 | the class is that of the maximum level at the speed in km/h, and the mean level is no louder than the maximum |
| Acoustic.MeasureRow | Audio/Classificazione_tcn.py:157-180 | one row's body produces the interval's measure: the short path or the window loop, then the class of the maximum level |
| AcousticRuns.Fresh | Audio/Classificazione_tcn.py:112-113 | a file is new exactly when it is listed, is a sample file, and has not been read yet |
| AcousticRuns.FreshNone | Audio/Classificazione_tcn.py:113-115 | once every listed sample file has been read, nothing is new |
| AcousticRuns.CsvFiles | src/audio/Classificazione_tcn.py:62 | a file is a GPS file exactly when it is listed and its name ends in `csv` |
| AcousticRuns.Ordered | src/audio/Classificazione_tcn.py:71 | the sort raises exactly when some name has no key; otherwise it returns the same files, ordered by key |
| AcousticRuns.OrderedByKey | src/audio/Classificazione_tcn.py:82 | after a sort that succeeds, every file has a key and the keys never decrease |
| AcousticRuns.Intervals | src/audio/Classificazione_tcn.py:121-129 | when the table parses, there is one interval per row |
| AcousticRuns.IntervalsDefined | src/audio/Classificazione_tcn.py:121-125 | the intervals exist exactly when the table has a row and every time in it parses |
| AcousticRuns.IntervalsRelative | src/audio/Classificazione_tcn.py:121-129 | the first interval starts at 0; every interval starts at its clock time minus the first one and keeps its duration and its speed |
| AcousticRuns.RelativeColumns | src/audio/Classificazione_tcn.py:124-129 | the same as `IntervalsRelative`, over any two parsed columns |
| AcousticRuns.LoadedStep | src/audio/Classificazione_tcn.py:146-148 | reading one more file appends exactly its scaled samples |
| AcousticRuns.LoadedAt | src/audio/Classificazione_tcn.py:137-148 | line `i` of file `q` lands at the count of lines before file `q` plus `i`, scaled |
| AcousticRuns.LoadedLength | src/audio/Classificazione_tcn.py:137-148 | the samples are exactly as many as the lines read |
| AcousticRuns.LoadFiles | src/audio/Classificazione_tcn.py:137-148 | the load loop fails with the first unreadable file and otherwise concatenates the scaled samples of every file in order |
| AcousticRuns.LoadFilesStep | src/audio/Classificazione_tcn.py:137-148 | one more readable file extends both the read contents and the samples by that file |
| AcousticRuns.LoadTcn | src/audio/Classificazione_tcn.py:73-148 | the script lists the sample files, sorts them by number and loads them in that order |
| AcousticRuns.ClassifyRows | src/audio/Classificazione_tcn.py:172-202 | a row is measured exactly when its end lies before the last sample, and a measured row gets the measure of its interval |
| AcousticRuns.DoneCount | Audio/Classificazione_tcn.py:182 | the count of measured rows never exceeds the number of rows |
| AcousticRuns.DoneCountSet | Audio/Classificazione_tcn.py:176-182 | measuring an empty row raises the count by one |
| AcousticRuns.DoneCountFull | Audio/Classificazione_tcn.py:143 | the count equals the number of rows exactly when every row is measured |
| AcousticRuns.SegmentStable | Audio/Classificazione_tcn.py:144-157 | once an interval is ready, more samples leave it ready and leave its segment unchanged |
| AcousticRuns.ConsistentGrows | Audio/Classificazione_tcn.py:144-157 | measures taken earlier stay correct after more samples arrive |
| AcousticRuns.DoneMatchesScript | Audio/Classificazione_tcn.py:146-180 | a row the class measured gets the same measure the script gives it on any longer recording |
| AcousticRuns.Passed | Audio/Classificazione_tcn.py:147-182 | a pass keeps one cell per row |
| AcousticRuns.PassRows | Audio/Classificazione_tcn.py:147-182 | the row loop of one pass computes the pass, and its count is the number of rows it measured |
| AcousticRuns.PassedConsistent | Audio/Classificazione_tcn.py:147-180 | a pass only writes correct measures |
| AcousticRuns.PassCompletes | Audio/Classificazione_tcn.py:143-186 | when every interval is ready, one pass measures every row |
| AcousticRuns.PassIdle | Audio/Classificazione_tcn.py:147-149 | a pass over a fully measured table changes nothing |
| AcousticRuns.PollSettles | Audio/Classificazione_tcn.py:112-127 | once every new file can be read, a poll leaves nothing new for the next one |
| AcousticRuns.PolledFilesListed | Audio/Classificazione_tcn.py:112-127 | every file a poll adds to the set was listed, is a sample file, and was not in the set before |
| AcousticRuns.ReadableStep | Audio/Classificazione_tcn.py:117-131 | a readable file adds its contents and joins the set; an unreadable one is skipped |
| AcousticRuns.ReadableAll | Audio/Classificazione_tcn.py:117-131 | when every file can be read, every file's contents are kept, in order |
| AcousticRuns.FirstPollAsScript | Audio/Classificazione_tcn.py:110-127 | when the script's load succeeds, the first poll of the same folder reads the same samples |
| AcousticRuns.ReadableAsLoaded | Audio/Classificazione_tcn.py:117-127 | when every file loads, the poll's samples equal the load loop's samples |
| AcousticRuns.Classifier.constructor | Audio/Classificazione_tcn.py:41-108 | the classifier starts with no samples, no file read, monitoring on and every row unmeasured |
| AcousticRuns.Classifier.Poll | Audio/Classificazione_tcn.py:110-131 | a poll leaves the rows alone; a sort that raises stops monitoring; otherwise the readable new files are appended in key order and join the set |
| AcousticRuns.Classifier.Pass | Audio/Classificazione_tcn.py:143-182 | a pass over the current samples measures the ready rows, and its count is the number it measured |
| AcousticRuns.Classifier.Analyze | Audio/Classificazione_tcn.py:134-190 | when it finishes every row is measured; measured rows keep their measure; a table that already had measured rows never finishes, since only rows measured during the call are counted; a table all ready at the start does finish |
| AcousticRuns.SkipAsWritten | Audio/Classificazione_tcn.py:148 | the NA test as written raises exactly on an empty cell |
| AcousticRuns.PassAsWrittenMeasuresNothing | Audio/Classificazione_tcn.py:147-149 | as written, a pass succeeds only when every row is already measured, and it then changes nothing; otherwise it raises `TypeError` |
| AcousticRuns.FirstPassRaises | Audio/Classificazione_tcn.py:82 | a fresh table makes the first pass raise `TypeError` on row 0 |
| Sampling.FirstMoving | src/video/VIDEO.py:194-200 | the first frame not below 1.5 m/s among the first `n`, with none before it, or none at all |
| Sampling.MovingFrames | src/video/VIDEO.py:194-196 | every listed frame is among the first `n` and not below 1.5 m/s |
| Sampling.SrcScanShape | src/video/VIDEO.py:186-215 | the points start with frame 0 and then list moving frames in non-decreasing order; the flag is set exactly when a moving frame was seen, and then the second point is the first moving frame; there is at most one point per moving frame besides these two |
| Sampling.SrcCountsNans | src/video/VIDEO.py:201-206 | `counternan` grows by exactly the number of NaN speeds, since a NaN speed always counts as moving |
| Sampling.FrameSampler.constructor | src/video/VIDEO.py:20-30 | a sampler starts with its frame rate and visual coverage and a NaN counter of 0 |
| Sampling.FrameSampler.ExtractionPoints | src/video/VIDEO.py:186-215 | a zero frame rate raises before the loop and changes nothing; otherwise the loop returns the points of the scan and `counternan` grows by the NaNs it met |
| Sampling.VideoScanShape | Video/utils/displacement_functions.py:5-33 | the other copy's points have the same shape, first points and bound |
| Sampling.VideoNanStops | Video/utils/displacement_functions.py:20-28 | once a NaN speed is met the distance stays NaN and no frame after it is extracted |
| Sampling.VideoExtractionPoints | Video/utils/displacement_functions.py:5-33 | a zero frame rate raises; otherwise the loop returns the points of the scan |
| Sampling.AllSlow | Video/utils/displacement_functions.py:13-15 | with no frame at 1.5 m/s or faster both copies return `[0]` |
| Sampling.NoMovingFrames | src/video/VIDEO.py:195-196 | with no moving frame among the first `n` there is none to list |
| Sampling.EveryMovingStep | src/video/VIDEO.py:194-210 | the points gained by one more frame when each moving frame alone covers the visual coverage |
| Sampling.SrcCoveredStep | src/video/VIDEO.py:201-210 | a moving frame that alone covers the visual coverage, after a reset, is extracted and the distance reset again |
| Sampling.VideoCoveredStep | Video/utils/displacement_functions.py:20-28 | the same for the other copy |
| Sampling.SrcEveryMoving | src/video/VIDEO.py:186-215 | when every moving frame alone covers the visual coverage, every moving frame is extracted, the first one twice |
| Sampling.VideoEveryMoving | Video/utils/displacement_functions.py:5-33 | the same for the other copy |
| Sampling.NanCopiesDiffer | Video/utils/displacement_functions.py:20-28 | the copies part at a NaN: with a NaN speed first and two fast frames after it, one copy extracts both fast frames and the other neither |
| Extraction.RunStep | Video/utils/displacement_functions.py:87-110 | one turn of the loop: a point inside the open video is sought there; one past its end opens the next video, shifting the remaining points, or ends the extraction after the last video |
| Extraction.ExtractionSeeks | Video/utils/displacement_functions.py:72-119 | with no video the call fails on `videos[0]`; otherwise the loop, shifting the array in place, makes exactly the seeks of the walk |
| Extraction.RunVideos | Video/utils/displacement_functions.py:87-110 | at most one seek per point; every seek names an existing video, and the videos are visited in order, never going back and at most one further per point |
| Extraction.RunStops | Video/utils/displacement_functions.py:95-101 | the walk stops early only at a point past the end of the last video, and at the first such point |
| Extraction.RunPositions | Video/utils/displacement_functions.py:87-117 | the shifted position of every seek, counted from the start of its video, is the point's frame in the whole recording |
| Extraction.RunSeeksUnshifted | Video/utils/displacement_functions.py:90-110 | every seek asks for the shifted position, or, for a point that opened a new video, for the unshifted index, which lies past the end of the video left behind |
| Extraction.SeekPastVideo | Video/utils/displacement_functions.py:87-118 | two videos of 100 frames and the points 0 and 150: the second point is named 50 in the second video, but the seek asks that video for frame 150 |
| Extraction.CorrectedSeek | Video/utils/displacement_functions.py:110 | the corrected seek stays in the same video at the same shifted position |
| Extraction.CorrectedSeeksSampled | Video/utils/displacement_functions.py:87-118 | with the seek at the shifted position, every seek's position counted from the start of the recording (the frames of the earlier videos plus the position in its own video) is the frame that was sampled |
| Extraction.CorrectedSeekSkipsVideo | Video/utils/displacement_functions.py:94-107 | the walk moves on by one video per point, so with videos of 100, 100 and 100 frames and points `[0, 250]` even the shifted seek asks video 1 for frame 150 |
| Extraction.CentredBalanced | Video/utils/displacement_functions.py:184-192 | with `height == 0` the square fits exactly when its side fits both ways, and its margins differ by at most one pixel, the extra one on the right or at the bottom |
| Extraction.HeightBottomAligned | Video/utils/displacement_functions.py:184-192 | with a `height` the square runs from that row to the bottom edge and fits exactly when `height` lies in the frame and the rows below it are no more than the frame is wide |
| Extraction.DecentredMoves | Video/utils/displacement_functions.py:267-278 | a non-zero `x_0` moves the left edge and keeps the rows and side; the square fits exactly when its rows do and `x_0` leaves room for the side |
| Extraction.TwoSquaresAdjacent | Video/utils/displacement_functions.py:361-374 | `x_0 == 0` fails on the second square's unassigned edge; otherwise the two squares share rows and side, touch without overlapping, and both fit exactly when `x_0` plus two sides fit the width |
| FrameNames.FrameFileNumbered | Video/utils/displacement_functions.py:117 | the frame number read back from a `frame_<position>.png` name is that position |
| FrameNames.TagKeepsNoFrameNumber | Video/utils/displacement_functions.py:380-381 | appending a tag such as `_l` or `_r` to a folder name without a frame number adds none |
| FrameNames.CarFrameNumbered | Video/utils/displacement_functions.py:198 | the frame number read back from a `<car>_frame_<index>.png` name is the seek index, as long as the folder name carries no frame number of its own |
| FrameNames.SideFramesNumbered | Video/utils/displacement_functions.py:380-381 | the same for both the left and the right square's names |
| FrameFolders.DigitRun | src/video/VIDEO.py:219 | the digit run stays inside the name, holds only digits and is maximal |
| FrameFolders.FirstMatch | src/video/VIDEO.py:219 | the search finds a match of `frame_` and a digit at or after the start, with none before it |
| FrameFolders.FrameNumber | src/video/VIDEO.py:217-220 | the frame number is at least -1, and -1 exactly when no `frame_` followed by a digit occurs in the name |
| FrameFolders.FrameNumberOfName | src/video/VIDEO.py:217-220 | the name `<folder>_frame_<n>.png` is numbered `n`, as long as the folder name carries no frame number |
| FrameFolders.FirstMatchIs | src/video/VIDEO.py:219 | the search finds the first match at or after its start |
| FrameFolders.DigitRunIs | src/video/VIDEO.py:219-220 | `(\d+)` takes every digit up to the first non-digit |
| FrameFolders.NoNumber | src/video/VIDEO.py:220 | a name without `frame_` and a digit is numbered -1 |
| FrameFolders.ListedFiles | src/video/VIDEO.py:151-153 | the listed names are exactly the listing's names that pass the filter, each no more often than in the listing |
| FrameFolders.PngWithoutNumber | src/video/VIDEO.py:153 | as the filter is written, a `.png` image without a frame number is listed and numbered -1, while such a `.jpg` image is not listed |
| FrameFolders.From | src/video/VIDEO.py:164 | the kept names are exactly those numbered at least the threshold |
| FrameFolders.Before | src/video/VIDEO.py:165 | the backed-up names are exactly those numbered below the threshold |
| FrameFolders.SplitPartition | src/video/VIDEO.py:164-165 | every name goes to exactly one side of the split |
| FrameFolders.FromSorted | src/video/VIDEO.py:164 | keeping part of a sorted list keeps it sorted |
| FrameFolders.SameSplit | src/video/VIDEO.py:159-165 | two thresholds that no frame number lies between split the frames alike |
| FrameFolders.FirstFrom | src/video/VIDEO.py:159-161 | a first available frame exists exactly when some frame is numbered at least the start index, and it is the number of such a frame |
| FrameFolders.FirstFromLeast | src/video/VIDEO.py:159 | in the sorted frames the first available number is the smallest at or above the start index |
| FrameFolders.Groups | src/video/VIDEO.py:177-178 | one group per started four names |
| FrameFolders.GroupsShape | src/video/VIDEO.py:177-182 | every group holds four names except the last, which holds one to four, and in order the groups are the whole list |
| FrameFolders.GroupsFlatten | src/video/VIDEO.py:177-182 | in order, the groups are the whole list |
| FrameFolders.FlattenGroups | src/video/VIDEO.py:177-178 | the first `k` groups are the first `4k` names, or all of them |
| FrameFolders.GroupInFours | src/video/VIDEO.py:177-182 | the loop fills exactly those groups, in order |
| FrameFolders.FolderKey | src/video/VIDEO.py:179 | the interval table written for the folder of group `j` is read back by the processor as interval `j + 1` |
| FrameFolders.OrganizeFrames | src/video/VIDEO.py:150-182 | the method raises or lays out the frames exactly as the listing and the start index determine |
| FrameFolders.Frames | src/video/VIDEO.py:151-154 | the frames are the listed names, each as often as listed, sorted by frame number |
| FrameFolders.OrganizeFails | src/video/VIDEO.py:159-161 | `ValueError` exactly when no listed frame is numbered at the start index or later |
| FrameFolders.OrganizeSides | src/video/VIDEO.py:159-182 | the backup holds exactly the listed frames numbered below the start index, the groups exactly the others, in frame order |
| FrameFolders.OrganizePartition | src/video/VIDEO.py:164-182 | backup and groups together hold every listed frame exactly once |
| FrameFolders.UnnumberedPngBackedUp | src/video/VIDEO.py:153-171 | a listed `.png` without a frame number always lands in the backup |
| Sorting.SortedTail | src/video/VIDEO.py:151-154 | the tail of a sorted list is sorted, and its head has the least key |
| Sorting.ConsSorted | src/video/VIDEO.py:151-154 | an element with the least key in front of a sorted list keeps it sorted |
| Sorting.InsertBy | src/video/VIDEO.py:151-154 | inserting adds exactly the one element |
| Sorting.InsertSorted | src/video/VIDEO.py:151-154 | inserting into a sorted list keeps it sorted |
| Sorting.SortBy | src/video/VIDEO.py:151-154 | `sorted(..., key=...)` returns a permutation of its input, sorted by key |
| Sorting.SortSorted | src/video/VIDEO.py:174 | sorting what is already sorted changes nothing, so sorting the kept frames again keeps their order |
| Format.PadDigits | src/video/MODELS.py:278 | the fraction of `.6f` has exactly the given number of digits |
| Format.Fraction6 | src/video/MODELS.py:278 | six fraction digits written for `r` millionths read back as `r / 1000000` |
| Format.Fixed6 | src/video/MODELS.py:278 | a number written with `.6f` is an optional `-` (present exactly for a negative number), at least one digit of whole part, a `.` and exactly six digits |
| Format.Fixed6Read | src/video/MODELS.py:278 | `float()` of a non-negative number written with `.6f` is that number rounded to six decimals |
| Format.Fixed6NoSpace | src/video/MODELS.py:278 | a number written with `.6f` contains no whitespace, so it stays one field of the label line |
| Filters.Unzip | Video/utils_filters.py:13-17 | three lists as long as the detections, index by index their box, score and class |
| Filters.ZipUnzip | Video/utils_filters.py:9-17 | splitting detections into lists and zipping them again gives them back |
| Filters.Select | Video/utils_filters.py:9-15 | no more detections are kept than were given |
| Filters.SelectSound | Video/utils_filters.py:12-15 | every kept detection is an input detection whose score reaches its class's threshold |
| Filters.SelectComplete | Video/utils_filters.py:12-15 | every input detection whose score reaches its class's threshold is kept |
| Filters.SelectAppend | Video/utils_filters.py:9-15 | filtering works piecewise on concatenated inputs, so the input order is kept |
| Filters.SelectIdempotent | Video/utils_filters.py:9-15 | filtering again with the same thresholds changes nothing |
| Filters.SelectNoThresholds | Video/utils_filters.py:82 | with thresholds set to `None` every detection is kept |
| Filters.FilterByClass | Video/utils_filters.py:3-17 | three lists of equal length, no longer than the shortest input list |
| Filters.FilterBoxesByClassThresholds | Video/utils_filters.py:3-17 | the loop returns exactly the detections whose score reaches `thresholds[str(int(cls))]`, 0 for an unlisted class, in input order and with integer classes |
| Filters.IntClassTwice | Video/utils_filters.py:10-12 | converting an integer class again changes neither it nor whether it passes |
| Filters.SelectIntClasses | Video/utils_filters.py:10-15 | filtering by class name commutes with converting the classes to integers |
| Filters.IntClassesTwice | Video/utils_filters.py:10 | converting every class twice is converting it once |
| Filters.FilterIdempotent | Video/utils_filters.py:3-17 | filtering the output again with the same thresholds gives the same lists |
| Filters.FilteredResults | Video/utils_filters.py:71-87 | three lists of equal length, no longer than the shortest input list |
| Filters.ResultsForFiltered | Video/utils_filters.py:71-87 | the loop returns exactly the detections that pass `classes_treshs`, by integer class with default 0.1, or all of them when it is `None`, classes unchanged |
| Filters.FilteredKeepsAll | Video/utils_filters.py:82 | with `None` thresholds three lists of equal length come back unchanged |
| Filters.DefaultsDiffer | Video/utils_filters.py:3-87 | a detection of an unlisted class scoring 0.05 passes the first filter (default 0) but not the second (default 0.1) |
| Filters.NormalizedInPixels | Video/utils_filters.py:19-27 | scaling a normalised box back by the image size gives the box again |
| Filters.NormalizedUnit | Video/utils_filters.py:19-27 | a box inside the image is normalised into the unit square |
| Filters.NormalizeBoxes | Video/utils_filters.py:19-27 | one box per input, each divided by the image's width and height |
| Filters.ResultsForWbf | Video/utils_filters.py:58-69 | the normalised detections are filtered; when some pass they are returned as the first of two model lists, otherwise the unfiltered normalised lists come back |
| Filters.NormalizedAll | Video/utils_filters.py:60 | one normalised box per input box |
| Filters.PerModelWhenSomePasses | Video/utils_filters.py:63-67 | the lists are split per model exactly when some detection reaches its class's threshold |
| Labels.Place | src/video/MODELS.py:257-265 | the corners come out in order inside the image, and where a pair coincides it sits on the last pixel, the second corner having been pushed one pixel on wherever the image allows |
| Labels.ToPixels | src/video/MODELS.py:237-265 | whatever the box's format, the pixel corners are in order and inside the image, and coincide only on the last pixel |
| Labels.PlaceKeeps | src/video/MODELS.py:257-265 | corners already in order, inside the image and apart are left as they are |
| Labels.PlaceSwapped | src/video/MODELS.py:257-258 | the corners may come in either order |
| Labels.PlaceIdempotent | src/video/MODELS.py:257-265 | placing a placed box changes nothing |
| Labels.PixelCornersKept | src/video/MODELS.py:237-265 | a box of whole pixel corners, in order, inside the image and not lying wholly in its top-left quarter, comes back unchanged |
| Labels.NormalisedCentreBox | src/video/MODELS.py:240-251 | the normalised YOLO box with centre 0.5 and size 0.2 on a 100 by 100 image becomes the pixels 40..60 on both axes |
| Labels.NormalisedCornerBox | src/video/MODELS.py:240-255 | normalised corners 0.25 and 0.75 on a 100 by 100 image become the pixels 25..75 on both axes |
| Labels.YoloLineUnit | src/video/MODELS.py:274-277 | every number of the label of a placed box lies in 0..1 |
| Labels.YoloLineCorners | src/video/MODELS.py:274-277 | scaled back by the image size, the label's centre and size give the pixel corners again |
| Labels.RenderRead | src/video/MODELS.py:278 | a rendered label line with no negative number reads back as five numbers: the class and the four numbers to six decimals |
| Labels.FieldRead | src/video/MODELS.py:278 | each rendered field reads back as its number |
| Labels.RenderWords | src/video/MODELS.py:278 | a rendered line splits on whitespace into exactly its five fields |
| Labels.LineForRead | src/video/MODELS.py:267-278 | every label line this copy writes is read back by the label reader as its class and its numbers to six decimals |
| LabelFiles.LabelTextTerminated | src/video/MODELS.py:297 | the label file is every line followed by its own newline, so it ends with a newline exactly when it has a line |
| LabelFiles.FrameOfLabelFile | src/video/MODELS.py:295 | the label reader names the frame of the label file written for an image by that image's name without its extension |
| LabelFiles.ImageName | src/video/MODELS.py:301 | the saved image always has a `.jpg`, `.jpeg` or `.png` extension, and a name that already has one is kept |
| LabelFiles.ImageNameIdempotent | src/video/MODELS.py:301 | naming the image again changes nothing |
| LabelFiles.SrcDrawing | src/video/MODELS.py:280-282 | drawing raises exactly for a class below -5; classes 0..4 get their own colour and name, higher classes colour `cls % 5` and the name `class_<cls>` |
| LabelFiles.SrcLine | src/video/MODELS.py:270-278 | one turn of the loop gives the box's class, 0 when the labels run out, and its label line |
| LabelFiles.SrcSaveResults | src/video/MODELS.py:213-302 | the call raises exactly when images are saved and some class has no name; otherwise it writes the lines with a final newline under the label name, and the image when asked |
| LabelFiles.VideoLineCorners | Video/MODELS.py:236-239 | the label's centre and size give back the box's corners |
| LabelFiles.VideoDrawnCorners | Video/MODELS.py:230-233 | corners given in 0..1 are drawn inside the image |
| LabelFiles.VideoDrawing | Video/MODELS.py:244-246 | drawing succeeds exactly for classes -5..4, with the colour and name the class indexes |
| LabelFiles.VideoSaveResults | Video/MODELS.py:213-257 | the call raises exactly when images are saved and some class is outside -5..4; otherwise it writes the lines joined with no final newline, and the image under its own name when asked |
| LabelFiles.TextsDiffer | Video/MODELS.py:253-254 | the two copies write the same lines differently: one file ends with a newline the other lacks |
| LabelFiles.JoinLast | Video/MODELS.py:254 | a join of lines ends with its last line |
| Damage.KindOf | src/video/INDEX.py:95-106 | a class index names a damage kind exactly when it is below five |
| Damage.Add | src/video/PROCESSOR.py:30-33 | adding two rows adds every one of their twenty counters |
| Damage.Bump | src/video/INDEX.py:112-142 | `+= 1` on one column raises that counter by one and leaves the other nineteen unchanged |
| Damage.BumpTotal | src/video/INDEX.py:112-142 | counting one detection raises the total count by exactly one |
| Damage.SumColumnsIsColumnSum | src/video/PROCESSOR.py:30-33 | each counter of the column sums is the sum of that column over every frame |
| Damage.PotholesOfSum | src/video/PROCESSOR.py:237-240 | summing the pothole-like cells of every frame gives the pothole total of the column sums |
| Damage.CracksOfSum | src/video/PROCESSOR.py:238-241 | summing the crack cells of every frame gives the crack total of the column sums |
| Damage.AddGroups | src/video/PROCESSOR.py:30-33 | the pothole and crack totals of a sum of rows are the sums of their totals |
| LaneIndex.LabelBox | src/video/INDEX.py:57-65 | the box, taken from the label's numbers as pixels and clipped, never reaches outside the image |
| LaneIndex.RowMatches | src/video/INDEX.py:73-74 | no more pixels of a row match than the row has |
| LaneIndex.Percentage | src/video/INDEX.py:67-76 | an overlap percentage is never negative, and is 0 when the box has no positive area |
| LaneIndex.Ratio | src/video/INDEX.py:75 | an overlap no larger than the area gives at most 100%, and a full overlap exactly 100% |
| LaneIndex.CropShape | src/video/INDEX.py:67 | the crop of a box inside the image has one row per pixel row of the box, each that row's pixels between the box's columns |
| LaneIndex.MatchesAtMost | src/video/INDEX.py:73-74 | no more pixels match than the crop holds |
| LaneIndex.MatchesAll | src/video/INDEX.py:73-74 | in a crop of one colour every pixel matches that colour |
| LaneIndex.PercentageBound | src/video/INDEX.py:67-76 | for a box inside the image every percentage lies between 0 and 100 |
| LaneIndex.PercentageFull | src/video/INDEX.py:67-76 | a box of positive area lying wholly on one zone measures 100% on it |
| LaneIndex.Floats | src/video/INDEX.py:55 | when every word is a number there is one value per word |
| LaneIndex.LabelValues | src/video/INDEX.py:55 | a label line yields its numbers only when it has exactly five |
| LaneIndex.DetectionOf | src/video/INDEX.py:55-78 | a label line gives a detection exactly when it has five numbers |
| LaneIndex.Measure | src/video/INDEX.py:57-78 | a detection carries the class truncated toward zero and three non-negative percentages |
| LaneIndex.LabelLines | src/video/INDEX.py:48-49 | the kept lines are no more than the file's lines and none of them is blank |
| LaneIndex.Detections | src/video/INDEX.py:51-87 | a successful table has one row per label line |
| LaneIndex.DetectionsRows | src/video/INDEX.py:53-87 | the table exists exactly when every line parses, and then row `i` is line `i`'s detection |
| LaneIndex.CalcolaPercentuali | src/video/INDEX.py:38-87 | the loop builds the table of the file's non-blank lines, or stops with the error of the first line that raises |
| LaneIndex.NormalisedLabelCorner | src/video/INDEX.py:57-65 | with label values in 0..1 every corner of the box lies within the top-left pixel |
| LaneIndex.UnitCorner | src/video/INDEX.py:58-64 | truncating a corner computed from values in 0..1 gives 0 or 1 |
| LaneIndex.NormalisedLabelMissed | src/video/INDEX.py:55-78 | a normalised label lying strictly inside the frame measures 0% on every zone, whatever the mask |
| LaneIndex.CentredLabelMissed | src/video/INDEX.py:55-78 | the label line `3 0.5 0.5 0.2 0.2`, a pothole in the middle of the frame, measures 0% on every zone |
| LaneIndex.CentredLabelValues | src/video/INDEX.py:55 | that line reads as the five numbers 3, 0.5, 0.5, 0.2 and 0.2 |
| LaneIndex.FloatsAll | src/video/INDEX.py:55 | words that are all numbers read as exactly those numbers |
| LaneIndex.ScaledLabelBox | src/video/INDEX.py:57-65 | the box scaled from normalised to pixel coordinates never reaches outside the image |
| LaneIndex.ScaledLabelInside | src/video/INDEX.py:57-65 | with the label scaled, the box lies inside the image with its corners in order |
| LaneIndex.ScaledLabelMeasures | src/video/INDEX.py:57-76 | with the label scaled every percentage lies in 0..100, and a detection lying wholly on one zone measures 100% on it |
| LaneIndex.ClassName | src/video/INDEX.py:95-106 | `classi[cl]` names a class exactly for -5..4, negative indices counting from the end |
| LaneIndex.ZoneOf | src/video/INDEX.py:110-142 | under 1% on both wheel paths counts outside; overlap with both counts in `_both`, with one only in `_sx` or `_dx`; Longitudinal and Pothole need 40% on each path they touch, Transverse, Alligator and Manhole any overlap; any other class (the negative classes −5..−1 that reach `classi` from its end) counts only outside and never on a wheel path |
| LaneIndex.Kept | src/video/INDEX.py:92 | the kept detections are drawn from the table and lie at most 50% outside the carriageway |
| LaneIndex.KeptDiscards | src/video/INDEX.py:92 | a detection more than 50% outside the carriageway changes nothing |
| LaneIndex.CountAll | src/video/INDEX.py:104-142 | counting fails only with `IndexError` |
| LaneIndex.CountOne | src/video/INDEX.py:105-142 | one detection is counted exactly when its class indexes the class list, and otherwise raises `IndexError` |
| LaneIndex.CountAllCounts | src/video/INDEX.py:97-142 | counting succeeds exactly when every class indexes the list; then each counter is the number of detections that fall in its column, and the total is at most the number of detections |
| LaneIndex.RowOf | src/video/INDEX.py:89-144 | a frame's row is named after its label file |
| LaneIndex.RowOfCounts | src/video/INDEX.py:89-144 | the row exists exactly when every kept detection has a listed class; then each counter is the number of kept detections in its column |
| LaneIndex.ConvertDfToRow | src/video/INDEX.py:89-144 | the loop over the kept detections builds exactly that row, or fails with `IndexError` |
| LaneIndex.CountAllError | src/video/INDEX.py:105-106 | one detection of unknown class makes the whole count fail |
| LaneIndex.FileRow | src/video/INDEX.py:160-162 | a label file's row is named after that file's frame |
| LaneIndex.FolderTable | src/video/INDEX.py:157-163 | a successful interval table has one row per label file |
| LaneIndex.FolderTableRows | src/video/INDEX.py:157-163 | the table exists exactly when no label file raises; then row `i` is file `i`'s row |
| LaneIndex.LabelFileRow | src/video/INDEX.py:161-162 | one iteration yields that file's row or its error |
| LaneIndex.ProcessLabelsFolder | src/video/INDEX.py:148-166 | the loop appends the label files' rows in sorted order, or stops with the first error |
| RoadIndex.Color | src/video/PROCESSOR.py:17-28 | an index gets the gray colour exactly when it is outside 0..3 |
| RoadIndex.ColorsDistinct | src/video/PROCESSOR.py:23-28 | the four indices are drawn in four different colours |
| RoadIndex.ColorSrc | src/video/PROCESSOR.py:17-28 | NaN raises `ValueError`; any number is truncated toward zero first, so it is gray exactly when it lies outside the open range −1..4 (2.7 is orange) |
| RoadIndex.ColorVideo | Video/PROCESSOR.py:187-193 | the value is gray unless it is a whole number from 0 to 3, so NaN and 2.7 are gray |
| RoadIndex.ColorCopies | Video/PROCESSOR.py:187-193 | the two copies give the same colour to every whole number, while a fractional index between 0 and 4 is coloured by `src/` and gray in `Video/`, and NaN raises in `src/` and is gray in `Video/` |
| RoadIndex.PairGroup | src/video/PROCESSOR.py:35-54 | the three buckets of a group together hold every cell of its two classes |
| RoadIndex.PotholeGroup | src/video/PROCESSOR.py:36-41 | the Alligator/Pothole buckets together hold every pothole-like count |
| RoadIndex.CrackGroup | src/video/PROCESSOR.py:48-53 | the Longitudinal/Transverse buckets together hold every crack count |
| RoadIndex.ManholeGroup | src/video/PROCESSOR.py:42-47 | the Manhole buckets together hold every manhole count |
| RoadIndex.GroupsPartition | src/video/PROCESSOR.py:35-54 | the grouped totals of the column sums add up to exactly the pothole and crack totals the whole-table rule sums cell by cell |
| RoadIndex.Index | src/video/PROCESSOR.py:243-255 | the whole-table index lies in 0..3; more than six potholes give 3, any pothole at least 1, and no pothole with at most three cracks 0 |
| RoadIndex.IndexMonotone | src/video/PROCESSOR.py:243-255 | more damage of either kind never lowers the whole-table index |
| RoadIndex.TableIndex | src/video/PROCESSOR.py:231-255 | the index over every frame of the interval lies in 0..3 and is 3 with more than six potholes |
| RoadIndex.IndexVideo | Video/PROCESSOR.py:195-218 | the decision table of the other copy agrees with the first for non-negative pothole totals and falls through to 0 for negative ones |
| RoadIndex.FirstRowIndex | Video/PROCESSOR.py:195-197 | the other copy's index exists exactly when the table has a frame, and lies in 0..3 |
| RoadIndex.FirstRowOnly | Video/PROCESSOR.py:196-197 | frames after the first never change the other copy's index |
| RoadIndex.FirstRowAgrees | Video/PROCESSOR.py:195-218 | on a single frame with no negative count the two copies give the same index |
| RoadIndex.PotholeLevel | src/video/PROCESSOR.py:266-279 | the pothole level is 0 exactly when there are none; wheel-path potholes give at least 2 and outside ones at most 2 |
| RoadIndex.CrackLevel | src/video/PROCESSOR.py:282-295 | the crack level is 0 exactly when there are none; wheel-path cracks give at least 2 and outside ones at most 2 |
| RoadIndex.WeightedIndex | src/video/PROCESSOR.py:298-307 | on the weighted sum `P_A + 0.8·L_T`, the index is 0 below 1, 1 from 1 to below 3.5, 2 from 3.5 to below 4.5, and 3 from 4.5 on |
| RoadIndex.IndexNew | src/video/PROCESSOR.py:257-307 | the alternative index lies in 0..3; `IndexNewGood`, `IndexNewMiddle` and `IndexNewWorst` say on the wheel-path and outside totals when it is 0, 2 and 3, and it is 1 otherwise |
| RoadIndex.IndexNewGood | src/video/PROCESSOR.py:257-307 | the alternative index is 0 exactly when there is no pothole at all, no crack on the wheel paths and fewer than six cracks outside them |
| RoadIndex.WeightedGood | src/video/PROCESSOR.py:266-301 | the same, stated on the four wheel-path and outside totals |
| RoadIndex.IndexNewWorst | src/video/PROCESSOR.py:298-307 | `calcola_indice_new` is 3 exactly when at least 4 potholes lie on the wheel paths and there is a crack on them or at least 6 outside; a table with no potholes, or with no cracks, never scores above 1 |
| RoadIndex.IndexNewMiddle | src/video/PROCESSOR.py:257-307 | `calcola_indice_new` is 2 exactly when at least 4 potholes lie on the wheel paths with no crack on them and 1 to 5 cracks outside, or when the potholes are 1 to 3 on the wheel paths (or none there and at least 4 outside) and there is a crack on the wheel paths or at least 6 outside; with IndexNewGood and IndexNewWorst this fixes index 1 too |
| RoadIndex.PotIndex | src/video/PROCESSOR.py:314-377 | the pothole score lies in 0..3, at most 2 for class 0, and 0 for any class other than 0, 1 and 2 |
| RoadIndex.CrackIndex | src/video/PROCESSOR.py:322-377 | the crack score lies in 0..3, at most 1 for class 0, and 0 for any class other than 0, 1 and 2 |
| RoadIndex.Grade | src/video/PROCESSOR.py:379-392 | the grade lies in 0..3; a zero score grades 1 exactly for a positive class, and a score from 1 up to 2.5 grades 1 |
| RoadIndex.PerRow | src/video/PROCESSOR.py:310-392 | the per-class index lies in 0..3, at most 2 for class 0, 1 for a positive class without damage, and 0 for a missing class |
| RoadIndex.PerRowMinorCrack | src/video/PROCESSOR.py:347-384 | a single crack on the right wheel path lowers class 1 from index 1 to 0 |
| RoadIndex.PerRowOtherClasses | src/video/PROCESSOR.py:376-392 | for class 3 and above, and for class -1, the damage is not looked at |
| Processor.EffectiveClass | src/video/PROCESSOR.py:62-64 | a manhole on the wheel paths lowers every class but -1 by one; without one, or for class -1, the class is kept, and a missing class stays missing |
| Processor.ProcessSrc | src/video/PROCESSOR.py:56-80 | every interval file yields a result: the column sums of its table and an index in 0..3; class -1 takes the whole-table rule and a missing class scores 0 |
| Processor.ProcessSrcClasses | src/video/PROCESSOR.py:62-73 | negative classes, and class 0 with a manhole on the wheel paths, take the whole-table rule; every other class takes the per-class rule one class lower when a manhole lies on the wheel paths |
| Processor.ProcessVideo | Video/PROCESSOR.py:45-72 | a successful result carries the column sums of the table and an index in 0..3 |
| Processor.VideoProcessFails | Video/PROCESSOR.py:45-72 | a result is produced exactly for a class of at most 0 other than -1 with a manhole on the wheel paths, and its index then comes from the first frame alone |
| Processor.IntervalKey | src/video/PROCESSOR.py:94-100 | a name yields a number only when, after setting aside one final newline that `$` allows, it is `INTERVALLO_` in any case, ASCII digits and `.csv` |
| Processor.IntervalKeyOfName | src/video/PROCESSOR.py:94-100 | every `intervallo_<n>.csv` name reads back as `n` |
| Processor.IntervalKeyFinalNewline | src/video/PROCESSOR.py:94 | a name followed by one newline still reads as its number, since `$` matches before a final newline |
| Processor.IntervalKeySuffix | src/video/PROCESSOR.py:94 | the pattern is anchored at the end: a name with anything after `.csv` other than one final newline is not an interval file |
| Processor.TaskOf | src/video/PROCESSOR.py:97-103 | a listed file becomes a task only when its name matches and its number has a GPS row |
| Processor.Tasks | src/video/PROCESSOR.py:96-103 | no more tasks than files, each for an existing GPS row and carrying that row's acoustic class |
| Processor.Outcomes | src/video/PROCESSOR.py:105-119 | exactly the intervals that have a task get a result |
| Processor.OutcomesSrc | src/video/PROCESSOR.py:56-119 | every stored result is a success with an index in 0..3 |
| Processor.OutcomesVideo | Video/PROCESSOR.py:45-110 | an interval whose tasks all have a class outside the working range only ever stores an error |
| Processor.MergedRow | src/video/PROCESSOR.py:122-137 | each output row keeps its id and GPS columns; it carries the result's totals and index when that succeeded, and zeros and index 0 otherwise |
| Processor.RunRows | src/video/PROCESSOR.py:121-157 | one output row per GPS row, in id order, each carrying its own GPS columns |
| Processor.RunMissing | src/video/PROCESSOR.py:126-133 | a GPS row with no matching interval file gets zeros and index 0 |
| Processor.TaskFromFile | src/video/PROCESSOR.py:97-103 | every work item comes from a listed file whose name carries its interval number |
| Processor.RunSrcIndex | src/video/PROCESSOR.py:84-158 | every output index is in 0..3 |
| Processor.RunVideoZeroes | Video/PROCESSOR.py:45-124 | a GPS row whose class is -1, positive or missing gets zeros and index 0, whatever its interval file holds |
| Processor.Run | src/video/PROCESSOR.py:84-158 | the output is the listing's tasks processed and merged into one row per GPS row |
| Processor.CollectTasks | src/video/PROCESSOR.py:96-103 | the listing loop builds exactly the work items of the listing, in listing order |
| Processor.ProcessAll | src/video/PROCESSOR.py:105-119 | the pool stores each task's result under its interval number, later tasks replacing earlier ones |
| Processor.Merge | src/video/PROCESSOR.py:121-137 | one merged row per GPS row, in GPS order |

## Left out

- The acquisition node's firmware (ADC framing, the sample ring buffer, the start and stop commands) is not part of this model. Only its host-side consumer in `src/audio/ESP32.py` is modelled.
- Sockets, the serial port and HTTP are not modelled: the socket setup and `send` of `src/audio/ESP32.py`, the `serial.Serial` reads of `src/audio/gps.py`, and `src/audio/gopro.py`. The download takes the successive `recv` results as a sequence of byte chunks, and a socket timeout is the end of that sequence. The GPS takes the received lines as a sequence of strings.
- Threads, locks, queues, `Pool` and `ProcessPoolExecutor` are not modelled. Each worker pool is a sequential pass in submission order. The monitor thread and `analyze` of `Audio/Classificazione_tcn.py` are `Poll` and `Pass` calls on one object, in any order; sleeping and polling intervals are not modelled.
- `AcousticRuns.Classifier.Analyze`: it returns when the listings it is given run out, where the source keeps waiting for more files.
- `src/video/FRAMEEXTRACTION.py` and `src/video/FrameExtracton.py` are not modelled: their substance is parallel decoding across processes and thread pools.
- Floating-point library code enters as function parameters and is not modelled:
  - the cubic spline of `interpolate_to_8192`;
  - `sosfilt` with the `20·log10` RMS level, and `log10` of the speed;
  - `geodesic`, `interp1d` and `interpolate_data_length` of `src/audio/gps.py` (interval points arrive with their speed);
  - `src/video/utils/gpx_to_csv_with_velocity.py` and `Video/utils/speed_functions.py`.
- `strptime`, the two-hour shift and `strftime` of `parse_nmea` are the parameter `stamp`. Timezones are not modelled.
- Floats are exact reals and integers are unbounded. Float rounding noise, which `round(..., 2)` removes in the index rules, is not modelled. The `0.8` crack weight is exact in tenths.
- Image and video I/O through OpenCV is not modelled: opening, seeking, reading, resizing and writing frames, and drawing boxes. A video enters only through its frame count, an image through its size, and a mask through its grid of pixel values.
- `extract_specific_frames` (`Video/utils/displacement_functions.py:35-63`) is not modelled: it seeks and saves frames of one video, with no arithmetic beyond the frame name.
- The video file order of `extract_specific_frames2` (the sort key at `Video/utils/displacement_functions.py:74-75`) is not modelled: the videos arrive as their frame counts, already in order.
- The model takes `extraction_points` as an array whose elements can all be shifted at once, as numpy allows. With a plain Python list, the shift at `Video/utils/displacement_functions.py:105` raises.
- pandas CSV reading and writing and the concatenation of the GPS files (`src/audio/Classificazione_tcn.py:85-92`, `Audio/Classificazione_tcn.py:64-71`) are not modelled. The model starts from the concatenated `Start`, `End` and `Velocità` columns. Interval tables reach `process_intervallo` and `calcola_percentuali` already parsed.
- `build_map` and `src/video/genera_mappa.py` (folium maps, apart from the `get_color` lookup), matplotlib plotting, the tkinter dialogs and the `main.py` entry points are not modelled.
- Printed progress and error messages are not modelled.
- `bytes.decode(errors='ignore')` drops every byte of 0x80 or above. This is exact for ASCII text and lone high bytes; multi-byte UTF-8 sequences are not modelled.
- `int()` and `float()` read ASCII decimal text only: no Unicode digits, and no `inf`, `nan` or exponent forms.
- `Extraction.CorrectedSeeksSampled`: it places each seek at the sampled frame counted from the start of the recording, not inside its video. A point that skips a whole video still lands past the end of the next video (`Extraction.CorrectedSeekSkipsVideo`), because the walk moves on by only one video per point.
- `Processor.IntervalKey`: `\d` matches ASCII digits only and case is ignored for ASCII letters only. Python's `\d` on `str` also matches other Unicode decimal digits, and `re.IGNORECASE` also folds some non-ASCII letters.
- `Sorting.SortBy`: it is proved to return a permutation sorted by key. The stability of Python's sort on equal keys is not stated.
- `AcousticRuns.DoneMatchesScript`: it is stated only for rows that start and end at or after the first start. A row with a negative index slices from the end of the samples, and that slice changes as more samples arrive.
- `AcousticRuns.Intervals`: its own contract states only the row count. `AcousticRuns.IntervalsDefined` and `AcousticRuns.IntervalsRelative` state, row by row, when the intervals exist and what each one is.

## Findings

| source | as written | input that shows it | evidently intended | confidence | as-written member | corrected member |
|---|---|---|---|---|---|---|
| Video/PROCESSOR.py:45-72 | class -1 never assigns `sum_df`; a class other than -1 with no manhole on the wheel paths never assigns `indice`; a class that stays non-negative calls `self.calcola_indice_per_riga`, which is not a method of the class; each case returns an error entry | class 2 with any table, or class -1 with any table | every interval gets its index, as `src/video/PROCESSOR.py:56-80` computes it | high, not executed | Processor.VideoProcessFails | Processor.ProcessSrc |
| src/video/INDEX.py:55-61 | the normalised label values `xc, yc, bw, bh` are used as pixel coordinates | the label line `3 0.5 0.5 0.2 0.2` on any mask: the box is empty and every percentage is 0 | scale the centre and size by the image width and height before cropping | high, not executed | LaneIndex.CentredLabelMissed | LaneIndex.ScaledLabelMeasures |
| Video/utils/displacement_functions.py:87-117 | after moving to the next video, the seek uses the index read before the shift | videos of 100 and 100 frames, points `[0, 150]`: the second video is asked for frame 150 | seek the shifted index, 50 | high, not executed | Extraction.SeekPastVideo | Extraction.CorrectedSeeksSampled |
| Audio/Classificazione_tcn.py:148 | `not np.isnan(cell)` on the `Int64` class column filled with `pd.NA` (line 82) | any table: the first pass reaches row 0, whose cell is `pd.NA`, and `not pd.NA` raises `TypeError` | skip exactly the rows that already have a class | medium, not executed | AcousticRuns.FirstPassRaises | AcousticRuns.PassCompletes |
