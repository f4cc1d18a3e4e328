/**
 * The twenty damage counters shared by the lane counting of one frame
 * (`src/video/INDEX.py`) and the interval processing
 * (`src/video/PROCESSOR.py`, `Video/PROCESSOR.py`).
 *
 * Five detector classes (Longitudinal, Transverse, Alligator, Pothole,
 * Manhole) are each counted in four columns: the plain column for a
 * detection outside both wheel paths, `_sx` and `_dx` for one wheel path,
 * `_both` for a detection across both. A row of an interval file holds
 * one frame's twenty counters.
 */
module Damage {
  import opened Base

  datatype Kind = Longitudinal | Transverse | Alligator | Pothole | Manhole

  /** The column suffix: none (outside the wheel paths), `_sx`, `_dx`, `_both`. */
  datatype Zone = Outside | Sx | Dx | Both

  /** The four counters of one class. */
  datatype Tally = Tally(outside: int, sx: int, dx: int, both: int)

  /** The twenty counters, one `Tally` per class. */
  datatype Counts = Counts(longitudinal: Tally, transverse: Tally, alligator: Tally,
                           pothole: Tally, manhole: Tally)

  /** Class index `cl` of a detection, as `classi[cl]` reads it. */
  function KindOf(cl: nat): (k: Option<Kind>)
    ensures k.Some? <==> cl < 5
  {
    if cl == 0 then Some(Longitudinal)
    else if cl == 1 then Some(Transverse)
    else if cl == 2 then Some(Alligator)
    else if cl == 3 then Some(Pothole)
    else if cl == 4 then Some(Manhole)
    else None
  }

  function TallyOf(c: Counts, k: Kind): Tally
  {
    match k
    case Longitudinal => c.longitudinal
    case Transverse => c.transverse
    case Alligator => c.alligator
    case Pothole => c.pothole
    case Manhole => c.manhole
  }

  function At(t: Tally, z: Zone): int
  {
    match z
    case Outside => t.outside
    case Sx => t.sx
    case Dx => t.dx
    case Both => t.both
  }

  /** The counter of column `k`/`z`. */
  function Count(c: Counts, k: Kind, z: Zone): int
  {
    At(TallyOf(c, k), z)
  }

  const NoTally := Tally(0, 0, 0, 0)

  /** All twenty counters at 0. */
  const Zero := Counts(NoTally, NoTally, NoTally, NoTally, NoTally)

  function AddTally(a: Tally, b: Tally): Tally
  {
    Tally(a.outside + b.outside, a.sx + b.sx, a.dx + b.dx, a.both + b.both)
  }

  /** Column-wise sum of two rows. */
  function Add(a: Counts, b: Counts): (r: Counts)
    ensures forall k: Kind, z: Zone :: Count(r, k, z) == Count(a, k, z) + Count(b, k, z)
  {
    Counts(AddTally(a.longitudinal, b.longitudinal), AddTally(a.transverse, b.transverse),
           AddTally(a.alligator, b.alligator), AddTally(a.pothole, b.pothole),
           AddTally(a.manhole, b.manhole))
  }

  function BumpTally(t: Tally, z: Zone): Tally
  {
    match z
    case Outside => t.(outside := t.outside + 1)
    case Sx => t.(sx := t.sx + 1)
    case Dx => t.(dx := t.dx + 1)
    case Both => t.(both := t.both + 1)
  }

  /** `result[column] += 1`: one counter up by one, the other nineteen unchanged. */
  function Bump(c: Counts, k: Kind, z: Zone): (r: Counts)
    ensures Count(r, k, z) == Count(c, k, z) + 1
    ensures forall k': Kind, z': Zone :: (k' != k || z' != z) ==> Count(r, k', z') == Count(c, k', z')
  {
    match k
    case Longitudinal => c.(longitudinal := BumpTally(c.longitudinal, z))
    case Transverse => c.(transverse := BumpTally(c.transverse, z))
    case Alligator => c.(alligator := BumpTally(c.alligator, z))
    case Pothole => c.(pothole := BumpTally(c.pothole, z))
    case Manhole => c.(manhole := BumpTally(c.manhole, z))
  }

  /** The four counters of a class added up. */
  function TallyTotal(t: Tally): int
  {
    t.outside + t.sx + t.dx + t.both
  }

  /** All twenty counters added up. */
  function Total(c: Counts): int
  {
    TallyTotal(c.longitudinal) + TallyTotal(c.transverse) + TallyTotal(c.alligator)
      + TallyTotal(c.pothole) + TallyTotal(c.manhole)
  }

  /** Bumping one counter raises the total by one. */
  lemma BumpTotal(c: Counts, k: Kind, z: Zone)
    ensures Total(Bump(c, k, z)) == Total(c) + 1
  {
  }

  /** The eight pothole-like columns: Alligator and Pothole in every zone. */
  function Potholes(c: Counts): int
  {
    TallyTotal(c.alligator) + TallyTotal(c.pothole)
  }

  /** The eight crack columns: Longitudinal and Transverse in every zone. */
  function Cracks(c: Counts): int
  {
    TallyTotal(c.longitudinal) + TallyTotal(c.transverse)
  }

  // ---------------------------------------------------------------- tables

  /** One column of a table, top to bottom. */
  function Column(table: seq<Counts>, k: Kind, z: Zone): (col: seq<int>)
    ensures |col| == |table|
    ensures forall i :: 0 <= i < |table| ==> col[i] == Count(table[i], k, z)
  {
    seq(|table|, i requires 0 <= i < |table| => Count(table[i], k, z))
  }

  /** `calcola_somma_colonne`: the one-row table of column sums. */
  function SumColumns(table: seq<Counts>): Counts
  {
    if table == [] then Zero else Add(SumColumns(table[..|table| - 1]), table[|table| - 1])
  }

  /** Each counter of the column sums is the sum of that column. */
  lemma {:induction false} SumColumnsIsColumnSum(table: seq<Counts>, k: Kind, z: Zone)
    ensures Count(SumColumns(table), k, z) == Sum(Column(table, k, z))
    decreases |table|
  {
    if table != [] {
      var front := table[..|table| - 1];
      SumColumnsIsColumnSum(front, k, z);
      assert Column(table, k, z)[..|table| - 1] == Column(front, k, z);
    }
  }

  /** Per-frame pothole totals, top to bottom. */
  function PotholeColumn(table: seq<Counts>): (col: seq<int>)
    ensures |col| == |table|
    ensures forall i :: 0 <= i < |table| ==> col[i] == Potholes(table[i])
  {
    seq(|table|, i requires 0 <= i < |table| => Potholes(table[i]))
  }

  /** Per-frame crack totals, top to bottom. */
  function CrackColumn(table: seq<Counts>): (col: seq<int>)
    ensures |col| == |table|
    ensures forall i :: 0 <= i < |table| ==> col[i] == Cracks(table[i])
  {
    seq(|table|, i requires 0 <= i < |table| => Cracks(table[i]))
  }

  /** Summing the eight pothole columns of every frame equals the pothole total of the column sums. */
  lemma {:induction false} PotholesOfSum(table: seq<Counts>)
    ensures Potholes(SumColumns(table)) == Sum(PotholeColumn(table))
    decreases |table|
  {
    if table != [] {
      var front := table[..|table| - 1];
      PotholesOfSum(front);
      assert PotholeColumn(table)[..|table| - 1] == PotholeColumn(front);
      AddGroups(SumColumns(front), table[|table| - 1]);
    }
  }

  /** Summing the eight crack columns of every frame equals the crack total of the column sums. */
  lemma {:induction false} CracksOfSum(table: seq<Counts>)
    ensures Cracks(SumColumns(table)) == Sum(CrackColumn(table))
    decreases |table|
  {
    if table != [] {
      var front := table[..|table| - 1];
      CracksOfSum(front);
      assert CrackColumn(table)[..|table| - 1] == CrackColumn(front);
      AddGroups(SumColumns(front), table[|table| - 1]);
    }
  }

  lemma AddGroups(a: Counts, b: Counts)
    ensures Potholes(Add(a, b)) == Potholes(a) + Potholes(b)
    ensures Cracks(Add(a, b)) == Cracks(a) + Cracks(b)
  {
  }
}
