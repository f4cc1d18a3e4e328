/**
 * The host side of the acoustic acquisition node's recording download.
 *
 * After the `r` command the node streams its recording as text: one decimal
 * sample per line, a blank line closing each block of about one second, and
 * a line holding `.` ending the stream. The host cuts the byte stream into
 * lines, collects samples into the pending block, queues finished blocks,
 * and a second loop resamples every queued block to 8192 values and writes
 * them three at a time into numbered files.
 */
module Esp32 {
  import opened Base
  import opened Text
  import opened Numeric

  newtype byte = b: int | 0 <= b < 256

  const NL: byte := 10

  /** Name of the file the last block is written to when `.` arrives. */
  const FinalFile: string := "final_data.txt"

  /** Number of resampled blocks per numbered file. */
  const BlocksPerFile: nat := 3

  /** Length every block is resampled to. */
  const BlockLength: nat := 8192

  // ---------------------------------------------------------------- line splitting

  function FirstNewline(bs: seq<byte>): (r: Option<nat>)
    ensures r.Some? ==> r.value < |bs| && bs[r.value] == NL && forall j :: 0 <= j < r.value ==> bs[j] != NL
    ensures r.None? ==> forall j :: 0 <= j < |bs| ==> bs[j] != NL
    decreases |bs|
  {
    if bs == [] then None
    else if bs[0] == NL then Some(0)
    else match FirstNewline(bs[1..])
      case None => None
      case Some(i) => Some(i + 1)
  }

  /** The `\n`-terminated lines of `bs`, without their terminators. */
  function CompleteLines(bs: seq<byte>): seq<seq<byte>>
    decreases |bs|
  {
    match FirstNewline(bs)
    case None => []
    case Some(i) => [bs[..i]] + CompleteLines(bs[i + 1..])
  }

  /** What follows the last `\n` of `bs`: a line not yet complete. */
  function Remainder(bs: seq<byte>): (r: seq<byte>)
    ensures FirstNewline(r).None?
    decreases |bs|
  {
    match FirstNewline(bs)
    case None => bs
    case Some(i) => Remainder(bs[i + 1..])
  }

  /**
   * Appending bytes never changes the lines already complete: the lines of
   * `a + c` are those of `a` followed by those of `a`'s unfinished tail
   * continued by `c`.
   */
  lemma {:induction false} LinesAppend(a: seq<byte>, c: seq<byte>)
    ensures CompleteLines(a + c) == CompleteLines(a) + CompleteLines(Remainder(a) + c)
    ensures Remainder(a + c) == Remainder(Remainder(a) + c)
    decreases |a|
  {
    var f := FirstNewline(a);
    if f.Some? {
      var i := f.value;
      FirstNewlineAppend(a, c);
      assert (a + c)[..i] == a[..i];
      assert (a + c)[i + 1..] == a[i + 1..] + c;
      LinesAppend(a[i + 1..], c);
    }
  }

  lemma FirstNewlineAppend(a: seq<byte>, c: seq<byte>)
    requires FirstNewline(a).Some?
    ensures FirstNewline(a + c) == FirstNewline(a)
  {
    var i := FirstNewline(a).value;
    assert (a + c)[i] == NL;
    assert forall j :: 0 <= j < i ==> (a + c)[j] == a[j];
  }

  // ---------------------------------------------------------------- reading one line

  /** `bytes.decode(errors='ignore')`, on the ASCII the node sends: bytes above 0x7f are dropped. */
  function Decode(bs: seq<byte>): (s: string)
    ensures |s| <= |bs|
    ensures forall c :: c in s ==> c as int < 128
    ensures (forall i :: 0 <= i < |bs| ==> bs[i] < 128) ==>
              |s| == |bs| && forall i :: 0 <= i < |bs| ==> s[i] == bs[i] as int as char
    decreases |bs|
  {
    if bs == [] then []
    else (if bs[0] < 128 then [bs[0] as int as char] else []) + Decode(bs[1..])
  }

  /** Decoding is byte by byte: the decoding of two pieces is the decoding of the whole. */
  lemma {:induction false} DecodeAppend(a: seq<byte>, b: seq<byte>)
    ensures Decode(a + b) == Decode(a) + Decode(b)
    decreases |a|
  {
    if a != [] {
      assert (a + b)[0] == a[0] && (a + b)[1..] == a[1..] + b;
      DecodeAppend(a[1..], b);
    } else {
      assert a + b == b;
    }
  }

  /** The line as the host examines it: decoded and stripped. */
  function LineText(bs: seq<byte>): string
  {
    Strip(Decode(bs))
  }

  function Texts(ls: seq<seq<byte>>): (ts: seq<string>)
    ensures |ts| == |ls| && forall i :: 0 <= i < |ls| ==> ts[i] == LineText(ls[i])
  {
    seq(|ls|, i requires 0 <= i < |ls| => LineText(ls[i]))
  }

  /**
   * The sample a line carries: its first character is `-` or a digit and
   * `int()` accepts it. Any other line is ignored.
   */
  function Sample(line: string): (r: Option<int>)
    ensures r.Some? ==> line != [] && (line[0] == '-' || IsDigit(line[0]))
    ensures r.Some? ==> PyInt(line) == r
    ensures line != [] && (line[0] == '-' || IsDigit(line[0])) ==> r == PyInt(line)
  {
    if line != [] && (line[0] == '-' || IsDigit(line[0])) then PyInt(line) else None
  }

  // ---------------------------------------------------------------- the parser as a fold

  /** Blocks queued so far, the pending block, and whether `.` has been seen. */
  datatype Parse = Parse(queued: seq<seq<int>>, temp: seq<int>, finished: bool)

  const Init: Parse := Parse([], [], false)

  /** One line's effect; nothing changes once `.` has been seen. */
  function Feed(p: Parse, line: string): Parse
  {
    if p.finished then p
    else if line == [] then
      (if p.temp != [] then Parse(p.queued + [p.temp], [], false) else p)
    else if line == "." then
      Parse(if p.temp != [] then p.queued + [p.temp] else p.queued, p.temp, true)
    else match Sample(line)
      case Some(v) => Parse(p.queued, p.temp + [v], false)
      case None => p
  }

  function FeedAll(p: Parse, lines: seq<string>): Parse
    decreases |lines|
  {
    if lines == [] then p else Feed(FeedAll(p, lines[..|lines| - 1]), lines[|lines| - 1])
  }

  /** The samples of `lines` in order, up to the first `.` line. */
  function Values(lines: seq<string>): seq<int>
    decreases |lines|
  {
    if lines == [] then []
    else
      var pre := lines[..|lines| - 1];
      if "." in pre then Values(pre)
      else Values(pre) + (match Sample(lines[|lines| - 1]) case Some(v) => [v] case None => [])
  }

  /** Every sample accepted so far, queued or pending, in arrival order. */
  function Accepted(p: Parse): seq<int>
  {
    Flatten(p.queued) + (if p.finished then [] else p.temp)
  }

  /** `.` is what ends the parse. */
  lemma {:induction false} FeedAllFinishedIff(lines: seq<string>)
    ensures FeedAll(Init, lines).finished <==> "." in lines
    decreases |lines|
  {
    if lines != [] {
      var pre := lines[..|lines| - 1];
      var line := lines[|lines| - 1];
      FeedAllFinishedIff(pre);
      InLast(lines, ".");
      FeedFinished(FeedAll(Init, pre), line);
    }
  }

  /** One line finishes the parse exactly when it is `.`. */
  lemma FeedFinished(p: Parse, line: string)
    ensures Feed(p, line).finished == (p.finished || line == ".")
  {
  }

  /** A blank line never queues an empty block, and neither does `.`. */
  lemma {:induction false} FeedAllQueuedNonEmpty(lines: seq<string>)
    ensures forall k :: 0 <= k < |FeedAll(Init, lines).queued| ==> FeedAll(Init, lines).queued[k] != []
    decreases |lines|
  {
    if lines != [] {
      FeedAllQueuedNonEmpty(lines[..|lines| - 1]);
    }
  }

  /**
   * The parser loses and invents no sample: what it has queued, followed by
   * the pending block while the stream is open, is exactly the samples of the
   * lines read up to `.`.
   */
  lemma {:induction false} FeedAllAccepted(lines: seq<string>)
    ensures Accepted(FeedAll(Init, lines)) == Values(lines)
    decreases |lines|
  {
    if lines != [] {
      var pre := lines[..|lines| - 1];
      var line := lines[|lines| - 1];
      FeedAllAccepted(pre);
      FeedAllFinishedIff(pre);
      var p := FeedAll(Init, pre);
      if !p.finished && p.temp != [] && (line == [] || line == ".") {
        FlattenAppend(p.queued, [p.temp]);
        assert Flatten([p.temp]) == p.temp by { assert [p.temp][..0] == []; }
      }
    }
  }

  /** Once `.` has been read, later lines change nothing. */
  lemma {:induction false} FeedAllFinished(p: Parse, a: seq<string>, b: seq<string>)
    requires FeedAll(p, a).finished
    ensures FeedAll(p, a + b) == FeedAll(p, a)
    decreases |b|
  {
    if b == [] {
      assert a + b == a;
    } else {
      assert (a + b)[..|a + b| - 1] == a + b[..|b| - 1];
      FeedAllFinished(p, a, b[..|b| - 1]);
    }
  }

  // ---------------------------------------------------------------- the received stream

  /** The chunks `recv` returns before the first empty one, which means the peer closed. */
  function FirstEmpty(chunks: seq<seq<byte>>): (r: nat)
    ensures r <= |chunks|
    ensures forall j :: 0 <= j < r ==> |chunks[j]| > 0
    ensures r < |chunks| ==> |chunks[r]| == 0
    decreases |chunks|
  {
    if chunks == [] || |chunks[0]| == 0 then 0 else 1 + FirstEmpty(chunks[1..])
  }

  /** The chunks before the first empty one. */
  function UntilEmpty(chunks: seq<seq<byte>>): seq<seq<byte>>
  {
    chunks[..FirstEmpty(chunks)]
  }

  /** `FirstEmpty` is the only index with its two properties. */
  lemma FirstEmptyAt(chunks: seq<seq<byte>>, i: nat)
    requires i <= |chunks|
    requires forall j :: 0 <= j < i ==> |chunks[j]| > 0
    requires i == |chunks| || |chunks[i]| == 0
    ensures FirstEmpty(chunks) == i
  {
  }

  /** The bytes the host takes in: every chunk before the stream closes or times out. */
  function Received(chunks: seq<seq<byte>>): seq<byte>
  {
    Flatten(UntilEmpty(chunks))
  }

  /** What the download leaves behind, determined by the received bytes alone. */
  function Outcome(chunks: seq<seq<byte>>): Parse
  {
    FeedAll(Init, Texts(CompleteLines(Received(chunks))))
  }

  /**
   * The download's outcome keeps every sample received before `.`, in order,
   * finishes exactly when a `.` line arrives, and queues no empty block.
   */
  lemma OutcomeSpec(chunks: seq<seq<byte>>)
    ensures var lines := Texts(CompleteLines(Received(chunks)));
      && Accepted(Outcome(chunks)) == Values(lines)
      && (Outcome(chunks).finished <==> "." in lines)
      && (forall k :: 0 <= k < |Outcome(chunks).queued| ==> Outcome(chunks).queued[k] != [])
  {
    var lines := Texts(CompleteLines(Received(chunks)));
    FeedAllAccepted(lines);
    FeedAllFinishedIff(lines);
    FeedAllQueuedNonEmpty(lines);
  }

  lemma TextsAppend(a: seq<seq<byte>>, b: seq<seq<byte>>)
    ensures Texts(a + b) == Texts(a) + Texts(b)
  {
  }

  /** The chunks up to and including `i` are a prefix of what is received. */
  lemma ReceivedSplit(chunks: seq<seq<byte>>, i: nat)
    requires i < |chunks|
    requires forall j :: 0 <= j <= i ==> |chunks[j]| > 0
    ensures Received(chunks) == Flatten(chunks[..i + 1]) + Received(chunks[i + 1..])
  {
    var m := FirstEmpty(chunks);
    var tail := chunks[i + 1..];
    FirstEmptyAt(tail, m - (i + 1));
    assert UntilEmpty(tail) == chunks[i + 1..m];
    assert UntilEmpty(chunks) == chunks[..i + 1] + chunks[i + 1..m];
    FlattenAppend(chunks[..i + 1], chunks[i + 1..m]);
  }

  lemma UntilEmptyAt(chunks: seq<seq<byte>>, i: nat)
    requires i <= |chunks|
    requires forall j :: 0 <= j < i ==> |chunks[j]| > 0
    requires i == |chunks| || |chunks[i]| == 0
    ensures UntilEmpty(chunks) == chunks[..i]
  {
    FirstEmptyAt(chunks, i);
  }

  // ---------------------------------------------------------------- resampling and batching

  /**
   * `interpolate_to_8192` followed by `astype(int)`. A block of fewer than
   * two samples is repeated (0 for an empty one); otherwise `spline(block, k)`
   * stands for the cubic spline through the block evaluated at the k-th of
   * 8192 evenly spaced points, truncated toward zero.
   */
  function Interpolate(block: seq<int>, spline: (seq<int>, nat) -> real): (r: seq<int>)
    ensures |r| == BlockLength
    ensures |block| < 2 ==> forall k :: 0 <= k < |r| ==> r[k] == (if block == [] then 0 else block[0])
    ensures |block| >= 2 ==> forall k :: 0 <= k < |r| ==> r[k] == Trunc(spline(block, k))
  {
    if |block| < 2 then seq(BlockLength, _ => if block == [] then 0 else block[0])
    else seq(BlockLength, k requires 0 <= k => Trunc(spline(block, k)))
  }

  /** The queued elements that are not empty, in order. */
  function NonEmpty(q: seq<seq<int>>): (r: seq<seq<int>>)
    ensures |r| <= |q|
    ensures forall k :: 0 <= k < |r| ==> r[k] != []
    ensures (forall k :: 0 <= k < |q| ==> q[k] != []) ==> r == q
    decreases |q|
  {
    if q == [] then []
    else NonEmpty(q[..|q| - 1]) + (if q[|q| - 1] == [] then [] else [q[|q| - 1]])
  }

  function Resampled(q: seq<seq<int>>, spline: (seq<int>, nat) -> real): (r: seq<seq<int>>)
    ensures |r| == |q| && forall k :: 0 <= k < |q| ==> r[k] == Interpolate(q[k], spline)
  {
    seq(|q|, k requires 0 <= k < |q| => Interpolate(q[k], spline))
  }

  /**
   * Progress of the resampling loop once it has produced the resampled
   * `blocks`: `buffer` holds the blocks of the unfinished group, and every
   * complete group has been written under the next counter values.
   */
  ghost predicate Written(blocks: seq<seq<int>>, buffer: seq<seq<int>>,
                          c0: nat, counter: nat, f0: map<string, seq<int>>, files: map<string, seq<int>>)
  {
    && |buffer| == |blocks| % BlocksPerFile
    && buffer == blocks[|blocks| - |buffer|..]
    && counter == c0 + |Batches(blocks)|
    && files == WriteBatches(f0, c0, Batches(blocks))
  }

  /** A block that does not complete a group only joins the buffer. */
  lemma WrittenBuffer(blocks: seq<seq<int>>, b: seq<int>, buffer: seq<seq<int>>,
                      c0: nat, counter: nat, f0: map<string, seq<int>>, files: map<string, seq<int>>)
    requires Written(blocks, buffer, c0, counter, f0, files)
    requires |buffer| + 1 != BlocksPerFile
    ensures Written(blocks + [b], buffer + [b], c0, counter, f0, files)
  {
    BatchesSnoc(blocks, b);
    assert (blocks + [b])[|blocks| + 1 - (|buffer| + 1)..] == buffer + [b];
  }

  /** The third block of a group completes it: the group is written under the counter. */
  lemma WrittenFile(blocks: seq<seq<int>>, b: seq<int>, buffer: seq<seq<int>>,
                    c0: nat, counter: nat, f0: map<string, seq<int>>, files: map<string, seq<int>>)
    requires Written(blocks, buffer, c0, counter, f0, files)
    requires |buffer| + 1 == BlocksPerFile
    ensures Written(blocks + [b], [], c0, counter + 1, f0, files[BatchFile(counter) := Flatten(buffer + [b])])
  {
    var last := Flatten(buffer + [b]);
    assert Batches(blocks + [b]) == Batches(blocks) + [last] by {
      BatchesSnoc(blocks, b);
    }
    WriteBatchesSnoc(f0, c0, Batches(blocks), last);
  }

  /** The resampled blocks of the non-empty elements of `q`, in order. */
  function Blocks(q: seq<seq<int>>, spline: (seq<int>, nat) -> real): seq<seq<int>>
    decreases |q|
  {
    if q == [] then []
    else Blocks(q[..|q| - 1], spline) + (if q[|q| - 1] == [] then [] else [Interpolate(q[|q| - 1], spline)])
  }

  lemma {:induction false} BlocksResampled(q: seq<seq<int>>, spline: (seq<int>, nat) -> real)
    ensures Blocks(q, spline) == Resampled(NonEmpty(q), spline)
    decreases |q|
  {
    if q != [] {
      var n := |q| - 1;
      BlocksResampled(q[..n], spline);
      NonEmptySnoc(q, n);
      assert q[..n + 1] == q;
      if q[n] != [] {
        ResampledSnoc(NonEmpty(q[..n]), q[n], spline);
      } else {
        assert NonEmpty(q[..n]) + [] == NonEmpty(q[..n]);
      }
    }
  }

  lemma ResampledSnoc(q: seq<seq<int>>, b: seq<int>, spline: (seq<int>, nat) -> real)
    ensures Resampled(q + [b], spline) == Resampled(q, spline) + [Interpolate(b, spline)]
  {
  }

  lemma BlocksStep(q: seq<seq<int>>, i: nat, spline: (seq<int>, nat) -> real)
    requires i < |q|
    ensures Blocks(q[..i + 1], spline) == Blocks(q[..i], spline) + (if q[i] == [] then [] else [Interpolate(q[i], spline)])
  {
    assert q[..i + 1][..i] == q[..i];
  }

  lemma NonEmptySnoc(q: seq<seq<int>>, i: nat)
    requires i < |q|
    ensures NonEmpty(q[..i + 1]) == NonEmpty(q[..i]) + (if q[i] == [] then [] else [q[i]])
  {
    assert q[..i + 1][..i] == q[..i];
  }

  /** Consecutive groups of three blocks; a trailing group of fewer is dropped. */
  function Batches(blocks: seq<seq<int>>): (r: seq<seq<int>>)
    ensures |r| == |blocks| / BlocksPerFile
  {
    seq(|blocks| / BlocksPerFile, k requires 0 <= k < |blocks| / BlocksPerFile =>
      Flatten(blocks[BlocksPerFile * k..BlocksPerFile * k + BlocksPerFile]))
  }

  /** Adding a block completes a new batch exactly when it is the third of its group. */
  lemma BatchesSnoc(blocks: seq<seq<int>>, b: seq<int>)
    ensures |blocks| % 3 == 2 ==>
      Batches(blocks + [b]) == Batches(blocks) + [Flatten(blocks[|blocks| - 2..] + [b])]
    ensures |blocks| % 3 != 2 ==> Batches(blocks + [b]) == Batches(blocks)
  {
    var nb := blocks + [b];
    forall k | 0 <= k < |blocks| / 3
      ensures nb[3 * k..3 * k + 3] == blocks[3 * k..3 * k + 3]
    {
    }
    if |blocks| % 3 == 2 {
      assert nb[3 * (|blocks| / 3)..3 * (|blocks| / 3) + 3] == blocks[|blocks| - 2..] + [b];
    }
  }

  /** Every value of a batch file comes from its three blocks: the file holds 3 × 8192 values. */
  lemma BatchLength(blocks: seq<seq<int>>, k: nat)
    requires forall j :: 0 <= j < |blocks| ==> |blocks[j]| == BlockLength
    requires k < |blocks| / BlocksPerFile
    ensures |Batches(blocks)[k]| == BlocksPerFile * BlockLength
  {
    FlattenLength(blocks[3 * k..3 * k + 3], BlockLength);
  }

  lemma {:induction false} FlattenLength(ss: seq<seq<int>>, n: nat)
    requires forall j :: 0 <= j < |ss| ==> |ss[j]| == n
    ensures |Flatten(ss)| == |ss| * n
    decreases |ss|
  {
    if ss != [] {
      FlattenLength(ss[..|ss| - 1], n);
    }
  }

  /** `str(n) + ".txt"` */
  function BatchFile(n: nat): string
  {
    ShowNat(n) + ".txt"
  }

  /** Different counters name different files. */
  lemma BatchFileInjective(m: nat, n: nat)
    requires BatchFile(m) == BatchFile(n)
    ensures m == n
  {
    assert ShowNat(m) == BatchFile(m)[..|BatchFile(m)| - 4];
    assert ShowNat(n) == BatchFile(n)[..|BatchFile(n)| - 4];
    DigitsValueShowNat(m);
    DigitsValueShowNat(n);
  }

  lemma FinalFileNotBatch(n: nat)
    ensures BatchFile(n) != FinalFile
  {
    var s := ShowNat(n);
    assert BatchFile(n)[0] == s[0] && IsDigit(s[0]);
    assert FinalFile[0] == 'f';
  }

  /** Names of the batch files `c` to `c + n - 1`. */
  function BatchNames(c: nat, n: nat): set<string>
  {
    set k | c <= k < c + n :: BatchFile(k)
  }

  /** The files after writing `batches` under the counters `c`, `c + 1`, …, in order. */
  function WriteBatches(files: map<string, seq<int>>, c: nat, batches: seq<seq<int>>): map<string, seq<int>>
    decreases |batches|
  {
    if batches == [] then files
    else WriteBatches(files, c, batches[..|batches| - 1])[BatchFile(c + |batches| - 1) := batches[|batches| - 1]]
  }

  lemma WriteBatchesSnoc(files: map<string, seq<int>>, c: nat, batches: seq<seq<int>>, b: seq<int>)
    ensures WriteBatches(files, c, batches + [b]) == WriteBatches(files, c, batches)[BatchFile(c + |batches|) := b]
  {
    assert (batches + [b])[..|batches|] == batches;
  }

  /** File `c + k` holds batch `k`. */
  lemma {:induction false} WriteBatchesHolds(files: map<string, seq<int>>, c: nat, batches: seq<seq<int>>, k: nat)
    requires k < |batches|
    ensures BatchFile(c + k) in WriteBatches(files, c, batches)
    ensures WriteBatches(files, c, batches)[BatchFile(c + k)] == batches[k]
    decreases |batches|
  {
    var n := |batches| - 1;
    if k < n {
      WriteBatchesHolds(files, c, batches[..n], k);
      if BatchFile(c + k) == BatchFile(c + n) {
        BatchFileInjective(c + k, c + n);
      }
    }
  }

  /** A file that is not one of the batch names keeps its old content. */
  lemma {:induction false} WriteBatchesOthers(files: map<string, seq<int>>, c: nat, batches: seq<seq<int>>, name: string)
    requires name !in BatchNames(c, |batches|)
    ensures name in WriteBatches(files, c, batches) <==> name in files
    ensures name in files ==> WriteBatches(files, c, batches)[name] == files[name]
    decreases |batches|
  {
    if batches != [] {
      var n := |batches| - 1;
      assert BatchFile(c + n) in BatchNames(c, |batches|);
      assert BatchNames(c, n) <= BatchNames(c, |batches|);
      WriteBatchesOthers(files, c, batches[..n], name);
    }
  }

  // ---------------------------------------------------------------- the receiver

  class Receiver {
    /** Blocks handed from the download to the resampling loop. */
    var queue: seq<seq<int>>
    /** Number of the next batch file. */
    var counterName: nat
    /** Files written, by name. */
    var files: map<string, seq<int>>
    /** Commands sent to the node, in order. */
    var sent: string

    constructor ()
      ensures queue == [] && counterName == 0 && files == map[] && sent == []
    {
      queue := [];
      counterName := 0;
      files := map[];
      sent := [];
    }

    /**
     * `interpolation_and_writing`, run once the download has stopped queuing:
     * it drains the queue, skips empty elements, resamples each block and
     * writes every three consecutive blocks to `<counter>.txt`, advancing the
     * counter by one per file. A trailing group of fewer than three blocks is
     * never written.
     */
    method InterpolationAndWriting(spline: (seq<int>, nat) -> real)
      modifies this`queue, this`counterName, this`files
      ensures queue == []
      ensures var batches := Batches(Blocks(old(queue), spline));
        && counterName == old(counterName) + |batches|
        && files == WriteBatches(old(files), old(counterName), batches)
    {
      ghost var q0 := queue;
      ghost var c0 := counterName;
      ghost var f0 := files;
      var bufferBlocks: seq<seq<int>> := [];
      ghost var blocks: seq<seq<int>> := [];
      ghost var i := 0;
      assert q0[..0] == [];
      while |queue| > 0
        invariant 0 <= i <= |q0| && queue == q0[i..]
        invariant blocks == Blocks(q0[..i], spline)
        invariant Written(blocks, bufferBlocks, c0, counterName, f0, files)
        decreases |queue|
      {
        var element := queue[0];
        queue := queue[1..];
        BlocksStep(q0, i, spline);
        if |element| > 0 {
          bufferBlocks := ResampleBlock(element, spline, bufferBlocks, blocks, c0, f0);
          blocks := blocks + [Interpolate(element, spline)];
        }
        i := i + 1;
      }
      assert q0[..i] == q0;
    }

    /**
     * One non-empty queue element: resample it into the buffer and, when it
     * completes a group of three, write the group and advance the counter.
     */
    method ResampleBlock(element: seq<int>, spline: (seq<int>, nat) -> real, bufferBlocks: seq<seq<int>>,
                         ghost blocks: seq<seq<int>>, ghost c0: nat, ghost f0: map<string, seq<int>>)
      returns (bufferBlocks': seq<seq<int>>)
      modifies this`counterName, this`files
      requires Written(blocks, bufferBlocks, c0, counterName, f0, files)
      ensures Written(blocks + [Interpolate(element, spline)], bufferBlocks', c0, counterName, f0, files)
    {
      var block := Interpolate(element, spline);
      if |bufferBlocks| + 1 == BlocksPerFile {
        WrittenFile(blocks, block, bufferBlocks, c0, counterName, f0, files);
        var combined := Flatten(bufferBlocks + [block]);
        files := files[BatchFile(counterName) := combined];
        counterName := counterName + 1;
        bufferBlocks' := [];
      } else {
        WrittenBuffer(blocks, block, bufferBlocks, c0, counterName, f0, files);
        bufferBlocks' := bufferBlocks + [block];
      }
    }

    /**
     * `download_and_process_after_recording`: `chunks` are the successive
     * results of `recv`. Only complete lines are read; at `.` the pending
     * block is queued if not empty, written to `final_data.txt` (even when
     * empty) and the method returns; if the stream closes or times out
     * first, the pending block is dropped and `x` is sent.
     */
    method Download(chunks: seq<seq<byte>>)
      modifies this
      ensures queue == old(queue) + Outcome(chunks).queued
      ensures counterName == old(counterName)
      ensures files == (if Outcome(chunks).finished then old(files)[FinalFile := Outcome(chunks).temp] else old(files))
      ensures sent == old(sent) + "r" + (if Outcome(chunks).finished then "" else "x")
    {
      sent := sent + "r";
      var buffer: seq<byte> := [];
      var temp: seq<int> := [];
      ghost var seen: seq<byte> := [];
      ghost var lines: seq<seq<byte>> := [];
      ghost var p := Init;
      ConsumedStart();
      var i := 0;
      var done := false;
      while i < |chunks| && !done
        invariant 0 <= i <= |chunks|
        invariant forall j :: 0 <= j < i ==> |chunks[j]| > 0
        invariant seen == Flatten(chunks[..i])
        invariant Consumed(seen, lines, buffer)
        invariant !done ==> FirstNewline(buffer).None?
        invariant p == FeedAll(Init, Texts(lines)) && done == p.finished
        invariant done ==> Outcome(chunks) == p
        invariant queue == old(queue) + p.queued && temp == p.temp
        invariant files == (if done then old(files)[FinalFile := temp] else old(files))
        invariant counterName == old(counterName) && sent == old(sent) + "r"
      {
        if |chunks[i]| == 0 {
          break;
        }
        ConsumedAppend(seen, lines, buffer, chunks[i]);
        assert chunks[..i + 1][..i] == chunks[..i];
        seen := seen + chunks[i];
        buffer, temp, done, lines, p := TakeLines(buffer + chunks[i], temp, seen, lines, p, old(queue));
        if done {
          FinishedHere(chunks, i, seen, lines, buffer);
        }
        i := i + 1;
      }
      if !done {
        assert Outcome(chunks) == p by {
          UntilEmptyAt(chunks, i);
          Drained(seen, lines, buffer);
        }
        sent := sent + "x";
      }
    }

    /**
     * The inner loop of the download: while the buffer holds a `\n`, cut
     * off the line before it and handle it, stopping at `.`.
     */
    method TakeLines(buffer: seq<byte>, temp: seq<int>, ghost total: seq<byte>, ghost lines: seq<seq<byte>>,
                     ghost p: Parse, ghost q0: seq<seq<int>>)
      returns (rest: seq<byte>, temp': seq<int>, done: bool, ghost lines': seq<seq<byte>>, ghost p': Parse)
      modifies this`queue, this`files
      requires Consumed(total, lines, buffer)
      requires p == FeedAll(Init, Texts(lines)) && !p.finished
      requires queue == q0 + p.queued && temp == p.temp
      ensures Consumed(total, lines', rest)
      ensures p' == FeedAll(Init, Texts(lines')) && done == p'.finished
      ensures queue == q0 + p'.queued && temp' == p'.temp
      ensures !done ==> FirstNewline(rest).None?
      ensures files == if done then old(files)[FinalFile := temp'] else old(files)
    {
      rest, temp', done, lines', p' := buffer, temp, false, lines, p;
      while FirstNewline(rest).Some?
        invariant Consumed(total, lines', rest)
        invariant p' == FeedAll(Init, Texts(lines')) && !p'.finished
        invariant queue == q0 + p'.queued && temp' == p'.temp
        invariant files == old(files)
        decreases |rest|
      {
        var k := FirstNewline(rest).value;
        var line := LineText(rest[..k]);
        LineStep(total, lines', rest, k);
        FeedLine(lines', rest[..k]);
        lines' := lines' + [rest[..k]];
        rest := rest[k + 1..];
        ghost var f := Feed(Parse([], p'.temp, false), line);
        FeedShift(p', line);
        Associative(q0, p'.queued, f.queued);
        temp', done := HandleLine(line, temp');
        p' := Feed(p', line);
        if done {
          return;
        }
      }
    }

    /**
     * One stripped line of the stream: a blank line queues the pending block
     * if it is not empty and starts a new one; `.` queues it if not empty,
     * writes it to `final_data.txt` and ends the download; a sample line
     * extends it; anything else is ignored.
     */
    method HandleLine(line: string, temp: seq<int>) returns (temp': seq<int>, done: bool)
      modifies this`queue, this`files
      ensures var p := Feed(Parse([], temp, false), line);
        && queue == old(queue) + p.queued && temp' == p.temp && done == p.finished
        && files == (if done then old(files)[FinalFile := temp'] else old(files))
    {
      temp', done := temp, false;
      if line == [] {
        if temp' != [] {
          queue := queue + [temp'];
          temp' := [];
        }
      } else if line == "." {
        if temp' != [] {
          queue := queue + [temp'];
        }
        files := files[FinalFile := temp'];
        done := true;
      } else if line[0] == '-' || IsDigit(line[0]) {
        match PyInt(line)
        case Some(v) =>
          temp' := temp' + [v];
        case None =>
      }
    }
  }

  /**
   * Reading state: of the bytes `total` received, the complete lines in
   * `lines` have been handled and `buffer` holds what is left.
   */
  predicate Consumed(total: seq<byte>, lines: seq<seq<byte>>, buffer: seq<byte>)
  {
    CompleteLines(total) == lines + CompleteLines(buffer) && Remainder(total) == Remainder(buffer)
  }

  lemma ConsumedStart()
    ensures Consumed([], [], [])
  {
  }

  /** A new chunk extends the received bytes and the buffer alike. */
  lemma ConsumedAppend(seen: seq<byte>, lines: seq<seq<byte>>, buffer: seq<byte>, c: seq<byte>)
    requires Consumed(seen, lines, buffer)
    ensures Consumed(seen + c, lines, buffer + c)
  {
    LinesAppend(seen, c);
    LinesAppend(buffer, c);
    Associative(lines, CompleteLines(buffer), CompleteLines(Remainder(buffer) + c));
  }

  /** Cutting the first line off the buffer moves it to the lines read. */
  lemma LineStep(total: seq<byte>, lines: seq<seq<byte>>, buffer: seq<byte>, k: nat)
    requires Consumed(total, lines, buffer)
    requires FirstNewline(buffer) == Some(k)
    ensures Consumed(total, lines + [buffer[..k]], buffer[k + 1..])
  {
    Associative(lines, [buffer[..k]], CompleteLines(buffer[k + 1..]));
  }

  /** Once the buffer holds no `\n`, every complete line received has been read. */
  lemma Drained(total: seq<byte>, lines: seq<seq<byte>>, buffer: seq<byte>)
    requires Consumed(total, lines, buffer)
    requires FirstNewline(buffer).None?
    ensures CompleteLines(total) == lines
  {
    assert CompleteLines(buffer) == [];
    assert lines + [] == lines;
  }

  /** The lines read by the end of chunk `i` begin the lines of the whole stream. */
  lemma LinesPrefix(chunks: seq<seq<byte>>, i: nat, total: seq<byte>, lines: seq<seq<byte>>, buffer: seq<byte>)
    requires i < |chunks| && forall j :: 0 <= j <= i ==> |chunks[j]| > 0
    requires total == Flatten(chunks[..i + 1])
    requires Consumed(total, lines, buffer)
    ensures CompleteLines(Received(chunks)) ==
      lines + (CompleteLines(buffer) + CompleteLines(Remainder(total) + Received(chunks[i + 1..])))
  {
    var r := Received(chunks[i + 1..]);
    ReceivedSplit(chunks, i);
    assert Received(chunks) == total + r;
    LinesAppend(total, r);
    Associative(lines, CompleteLines(buffer), CompleteLines(Remainder(total) + r));
  }

  /** When `.` is read inside chunk `i`, the rest of the stream changes nothing. */
  lemma FinishedHere(chunks: seq<seq<byte>>, i: nat, total: seq<byte>, lines: seq<seq<byte>>, buffer: seq<byte>)
    requires i < |chunks| && forall j :: 0 <= j <= i ==> |chunks[j]| > 0
    requires total == Flatten(chunks[..i + 1])
    requires Consumed(total, lines, buffer)
    requires FeedAll(Init, Texts(lines)).finished
    ensures Outcome(chunks) == FeedAll(Init, Texts(lines))
  {
    LinesPrefix(chunks, i, total, lines, buffer);
    var more := CompleteLines(buffer) + CompleteLines(Remainder(total) + Received(chunks[i + 1..]));
    TextsAppend(lines, more);
    FeedAllFinished(Init, Texts(lines), Texts(more));
  }

  /** A line's effect does not depend on the blocks queued before it. */
  lemma FeedShift(p: Parse, line: string)
    requires !p.finished
    ensures var f := Feed(Parse([], p.temp, false), line);
      Feed(p, line) == Parse(p.queued + f.queued, f.temp, f.finished)
  {
  }

  /** Reading one more line is one more step of the fold. */
  lemma FeedLine(lines: seq<seq<byte>>, l: seq<byte>)
    ensures FeedAll(Init, Texts(lines + [l])) == Feed(FeedAll(Init, Texts(lines)), LineText(l))
  {
    var t := Texts(lines + [l]);
    assert t[..|t| - 1] == Texts(lines);
  }
}
