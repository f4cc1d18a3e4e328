/**
 * The road-condition index rules of `src/video/PROCESSOR.py` and
 * `Video/PROCESSOR.py`: decision tables that map the damage counted over
 * an interval, and the interval's acoustic class, to an index from
 * 0 (good) to 3 (bad), and the map colour of each index.
 *
 * The source weighs crack levels by 0.8 in floating point; every such
 * quantity here is kept in tenths (`10·pothole + 8·crack`), where the
 * comparisons with 1, 2.5, 3.5, 4.5 and 6 become comparisons with
 * 10, 25, 35, 45 and 60 on integers.
 */
module RoadIndex {
  import opened Base
  import opened Damage
  import Numeric

  /**
   * The acoustic class of an interval as read back from the GPS table:
   * -1 (too slow to classify) or 0..2, or `Missing` for an empty cell,
   * which pandas reads as NaN. NaN compares unequal and unordered with
   * every number, so `Missing` takes no branch guarded by a comparison.
   */
  datatype AcousticClass = Class(value: int) | Missing

  // ---------------------------------------------------------------- colours

  /** `get_color`: the legend colour of an index, gray for anything else. */
  function Color(index: int): (c: string)
    ensures c == "gray" <==> !(0 <= index <= 3)
  {
    if index == 0 then "green"
    else if index == 1 then "yellow"
    else if index == 2 then "orange"
    else if index == 3 then "red"
    else "gray"
  }

  /**
   * An `indice_finale` cell of the interval table as `read_csv` gives it to
   * `build_map`: a number, or NaN for an interval that got no index.
   */
  datatype IndexCell = Number(x: real) | NotANumber

  /**
   * `get_color` of `src/video/PROCESSOR.py`: `int()` truncates the cell
   * toward zero before the lookup, and `int()` of NaN raises `ValueError`.
   */
  function ColorSrc(v: IndexCell): (r: Result<string>)
    ensures r.Err? <==> v.NotANumber?
    ensures r.Ok? ==> (r.value != "gray" <==> -1.0 < v.x < 4.0)
  {
    match v
    case NotANumber => Err("ValueError")
    case Number(x) => Ok(Color(Numeric.Trunc(x)))
  }

  /**
   * `get_color` of `Video/PROCESSOR.py`: the cell itself is the key, and a
   * float key equals an integer key only when it has no fraction, so any
   * other value, NaN included, is gray.
   */
  function ColorVideo(v: IndexCell): (c: string)
    ensures c != "gray" <==> v.Number? && v.x == v.x.Floor as real && 0.0 <= v.x <= 3.0
  {
    match v
    case NotANumber => "gray"
    case Number(x) => if x == x.Floor as real then Color(x.Floor) else "gray"
  }

  /**
   * The two copies give the same colour to every whole-number index, and
   * differ on a fractional one inside the legend and on NaN.
   */
  lemma ColorCopies(v: IndexCell)
    ensures v.Number? && v.x == v.x.Floor as real ==> ColorSrc(v) == Ok(ColorVideo(v))
    ensures v.Number? && v.x != v.x.Floor as real && 0.0 < v.x < 4.0 ==>
              ColorSrc(v).Ok? && ColorSrc(v).value != "gray" && ColorVideo(v) == "gray"
    ensures v.NotANumber? ==> ColorSrc(v).Err? && ColorVideo(v) == "gray"
  {
    if v.Number? && v.x == v.x.Floor as real {
      assert Numeric.Trunc(v.x) == v.x.Floor;
    }
  }

  /** The four indices get four different colours. */
  lemma ColorsDistinct(i: int, j: int)
    requires 0 <= i <= 3 && 0 <= j <= 3 && i != j
    ensures Color(i) != Color(j)
  {
  }

  // ---------------------------------------------------------------- grouped totals

  /** One damage group of `calcola_totali_accorpati`: wheel paths (`SX/BOTH`), right path (`DX`), outside (`FUORI`). */
  datatype Group = Group(sxBoth: int, dx: int, outside: int)

  /** The grouped totals of two classes counted together. */
  function PairGroup(a: Tally, b: Tally): (g: Group)
    ensures g.sxBoth + g.dx + g.outside == TallyTotal(a) + TallyTotal(b)
  {
    Group(a.both + b.both + a.sx + b.sx, a.dx + b.dx, a.outside + b.outside)
  }

  /** The Alligator/Pothole group of a row of column sums. */
  function PotholeGroup(s: Counts): (g: Group)
    ensures g.sxBoth + g.dx + g.outside == Potholes(s)
  {
    PairGroup(s.alligator, s.pothole)
  }

  /** The Longitudinal/Transverse group of a row of column sums. */
  function CrackGroup(s: Counts): (g: Group)
    ensures g.sxBoth + g.dx + g.outside == Cracks(s)
  {
    PairGroup(s.longitudinal, s.transverse)
  }

  /** The Manhole group of a row of column sums. */
  function ManholeGroup(s: Counts): (g: Group)
    ensures g.sxBoth + g.dx + g.outside == TallyTotal(s.manhole)
  {
    Group(s.manhole.both + s.manhole.sx, s.manhole.dx, s.manhole.outside)
  }

  /** Total of the pothole-like cells of every frame, `P_A` of `calcola_indice`. */
  function TablePotholes(table: seq<Counts>): int
  {
    Sum(PotholeColumn(table))
  }

  /** Total of the crack cells of every frame, `L_T` of `calcola_indice`. */
  function TableCracks(table: seq<Counts>): int
  {
    Sum(CrackColumn(table))
  }

  /**
   * The three buckets of the grouped totals split the group's cells:
   * together they are exactly the `P_A` and `L_T` that `calcola_indice`
   * sums cell by cell.
   */
  lemma GroupsPartition(table: seq<Counts>)
    ensures var g := PotholeGroup(SumColumns(table)); g.sxBoth + g.dx + g.outside == TablePotholes(table)
    ensures var g := CrackGroup(SumColumns(table)); g.sxBoth + g.dx + g.outside == TableCracks(table)
  {
    PotholesOfSum(table);
    CracksOfSum(table);
  }

  // ---------------------------------------------------------------- calcola_indice

  /** The decision table of `calcola_indice` on the pothole total `pa` and the crack total `lt`. */
  function Index(pa: int, lt: int): (r: int)
    ensures 0 <= r <= 3
    ensures pa > 6 ==> r == 3
    ensures pa <= 0 && lt <= 3 ==> r == 0
    ensures pa > 0 ==> r >= 1
  {
    if pa > 6 then 3
    else if pa > 3 then (if lt > 6 then 3 else 2)
    else if pa > 0 then (if lt > 6 then 2 else 1)
    else if lt > 6 then 2
    else if lt > 3 then 1
    else 0
  }

  /** More damage of either kind never lowers the index. */
  lemma IndexMonotone(pa: int, lt: int, pa': int, lt': int)
    requires pa <= pa' && lt <= lt'
    ensures Index(pa, lt) <= Index(pa', lt')
  {
  }

  /** `calcola_indice` in `src/video/PROCESSOR.py`: the table over every frame of the interval. */
  function TableIndex(table: seq<Counts>): (r: int)
    ensures 0 <= r <= 3
    ensures TablePotholes(table) > 6 ==> r == 3
  {
    Index(TablePotholes(table), TableCracks(table))
  }

  /** `calcola_indice` in `Video/PROCESSOR.py` on its totals: a negative pothole total falls through to 0. */
  function IndexVideo(pa: int, lt: int): (r: int)
    ensures 0 <= r <= 3
    ensures pa >= 0 ==> r == Index(pa, lt)
    ensures pa < 0 ==> r == 0
  {
    if pa > 6 then 3
    else if pa > 3 then (if lt > 6 then 3 else 2)
    else if pa > 0 then (if lt > 6 then 2 else 1)
    else if pa == 0 then (if lt > 6 then 2 else if lt > 3 then 1 else 0)
    else 0
  }

  /**
   * `calcola_indice` in `Video/PROCESSOR.py`: the totals are taken from the
   * first frame only (`.iloc[0]`), which raises `IndexError` on an empty table.
   */
  function FirstRowIndex(table: seq<Counts>): (r: Result<int>)
    ensures r.Ok? <==> table != []
    ensures r.Ok? ==> 0 <= r.value <= 3
  {
    if table == [] then Err("IndexError")
    else Ok(IndexVideo(Potholes(table[0]), Cracks(table[0])))
  }

  /** Frames after the first do not change the `Video/PROCESSOR.py` index. */
  lemma FirstRowOnly(table: seq<Counts>, rest: seq<Counts>)
    requires table != []
    ensures FirstRowIndex(table + rest) == FirstRowIndex(table)
  {
    assert (table + rest)[0] == table[0];
  }

  /** On a one-frame table with no negative count the two copies agree. */
  lemma FirstRowAgrees(row: Counts)
    requires Potholes(row) >= 0
    ensures FirstRowIndex([row]) == Ok(TableIndex([row]))
  {
    assert PotholeColumn([row]) == [Potholes(row)];
    assert CrackColumn([row]) == [Cracks(row)];
    SumSingle(Potholes(row));
    SumSingle(Cracks(row));
  }

  lemma SumSingle(x: int)
    ensures Sum([x]) == x
  {
    assert [x][..0] == [];
  }

  // ---------------------------------------------------------------- calcola_indice_new

  /** Pothole level of `calcola_indice_new`: wheel-path damage counts more than damage outside. */
  function PotholeLevel(ruts: int, outside: int): (l: int)
    ensures 0 <= l <= 3
    ensures l == 0 <==> ruts < 1 && outside < 1
    ensures ruts >= 1 ==> l >= 2
    ensures ruts < 1 ==> l <= 2
  {
    if ruts >= 4 then 3
    else if ruts >= 1 then 2
    else if outside >= 4 then 2
    else if outside >= 1 then 1
    else 0
  }

  /** Crack level of `calcola_indice_new`, with threshold 6 where potholes use 4. */
  function CrackLevel(ruts: int, outside: int): (l: int)
    ensures 0 <= l <= 3
    ensures l == 0 <==> ruts < 1 && outside < 1
    ensures ruts >= 1 ==> l >= 2
    ensures ruts < 1 ==> l <= 2
  {
    if ruts >= 6 then 3
    else if ruts >= 1 then 2
    else if outside >= 6 then 2
    else if outside >= 1 then 1
    else 0
  }

  /** The index of the weighted sum `P_A + 0.8·L_T`, here `w = 10·P_A + 8·L_T` tenths. */
  function WeightedIndex(p: int, l: int): (r: int)
    ensures 0 <= r <= 3
    ensures r == 0 <==> 10 * p + 8 * l < 10
    ensures r == 1 <==> 10 <= 10 * p + 8 * l < 35
    ensures r == 2 <==> 35 <= 10 * p + 8 * l < 45
    ensures r == 3 <==> 10 * p + 8 * l >= 45
  {
    var w := 10 * p + 8 * l;
    if w < 10 then 0
    else if w < 35 then 1
    else if w < 45 then 2
    else 3
  }

  /** `calcola_indice_new`: levels from the wheel-path and outside totals of every frame. */
  function IndexNew(table: seq<Counts>): (r: int)
    ensures 0 <= r <= 3
  {
    var s := SumColumns(table);
    var pot := PotholeGroup(s);
    var crk := CrackGroup(s);
    WeightedIndex(PotholeLevel(pot.sxBoth + pot.dx, pot.outside),
                  CrackLevel(crk.sxBoth + crk.dx, crk.outside))
  }

  /**
   * `calcola_indice_new` is 0 exactly when there is no pothole at all, no
   * crack on the wheel paths and fewer than 6 cracks outside them.
   */
  lemma IndexNewGood(table: seq<Counts>)
    ensures var s := SumColumns(table);
            var pot := PotholeGroup(s);
            var crk := CrackGroup(s);
            IndexNew(table) == 0 <==>
              pot.sxBoth + pot.dx < 1 && pot.outside < 1 && crk.sxBoth + crk.dx < 1 && crk.outside < 6
  {
    var s := SumColumns(table);
    var pot := PotholeGroup(s);
    var crk := CrackGroup(s);
    WeightedGood(pot.sxBoth + pot.dx, pot.outside, crk.sxBoth + crk.dx, crk.outside);
  }

  lemma WeightedGood(potRuts: int, potOutside: int, crkRuts: int, crkOutside: int)
    ensures WeightedIndex(PotholeLevel(potRuts, potOutside), CrackLevel(crkRuts, crkOutside)) == 0 <==>
              potRuts < 1 && potOutside < 1 && crkRuts < 1 && crkOutside < 6
  {
  }

  /**
   * `calcola_indice_new` is 3 exactly when at least 4 potholes lie on the
   * wheel paths and there is either a crack on them or at least 6 cracks
   * outside; potholes alone, or cracks alone, never give more than 1.
   */
  lemma IndexNewWorst(table: seq<Counts>)
    ensures var s := SumColumns(table);
            var pot := PotholeGroup(s);
            var crk := CrackGroup(s);
            (IndexNew(table) == 3 <==>
               pot.sxBoth + pot.dx >= 4 && (crk.sxBoth + crk.dx >= 1 || crk.outside >= 6)) &&
            (crk.sxBoth + crk.dx < 1 && crk.outside < 1 ==> IndexNew(table) <= 1) &&
            (pot.sxBoth + pot.dx < 1 && pot.outside < 1 ==> IndexNew(table) <= 1)
  {
    var s := SumColumns(table);
    var pot := PotholeGroup(s);
    var crk := CrackGroup(s);
    WeightedWorst(pot.sxBoth + pot.dx, pot.outside, crk.sxBoth + crk.dx, crk.outside);
  }

  /**
   * `calcola_indice_new` is 2 exactly when at least 4 potholes lie on the
   * wheel paths with no crack on them and 1 to 5 cracks outside, or when
   * the potholes reach level 2 (1 to 3 on the wheel paths, or none there
   * and at least 4 outside) and the cracks reach level 2 or 3.
   */
  lemma IndexNewMiddle(table: seq<Counts>)
    ensures var s := SumColumns(table);
            var pot := PotholeGroup(s);
            var crk := CrackGroup(s);
            var potRuts := pot.sxBoth + pot.dx;
            var crkRuts := crk.sxBoth + crk.dx;
            IndexNew(table) == 2 <==>
              (potRuts >= 4 && crkRuts < 1 && 1 <= crk.outside < 6) ||
              ((1 <= potRuts < 4 || (potRuts < 1 && pot.outside >= 4)) && (crkRuts >= 1 || crk.outside >= 6))
  {
    var s := SumColumns(table);
    var pot := PotholeGroup(s);
    var crk := CrackGroup(s);
    WeightedMiddle(pot.sxBoth + pot.dx, pot.outside, crk.sxBoth + crk.dx, crk.outside);
  }

  lemma WeightedMiddle(potRuts: int, potOutside: int, crkRuts: int, crkOutside: int)
    ensures WeightedIndex(PotholeLevel(potRuts, potOutside), CrackLevel(crkRuts, crkOutside)) == 2 <==>
              (potRuts >= 4 && crkRuts < 1 && 1 <= crkOutside < 6) ||
              ((1 <= potRuts < 4 || (potRuts < 1 && potOutside >= 4)) && (crkRuts >= 1 || crkOutside >= 6))
  {
  }

  lemma WeightedWorst(potRuts: int, potOutside: int, crkRuts: int, crkOutside: int)
    ensures var p := PotholeLevel(potRuts, potOutside);
            var l := CrackLevel(crkRuts, crkOutside);
            (WeightedIndex(p, l) == 3 <==> potRuts >= 4 && (crkRuts >= 1 || crkOutside >= 6)) &&
            (l == 0 ==> WeightedIndex(p, l) <= 1) &&
            (p == 0 ==> WeightedIndex(p, l) <= 1)
  {
  }

  // ---------------------------------------------------------------- calcola_indice_per_riga

  /** Pothole part of `calcola_indice_per_riga` for acoustic class `c`. */
  function PotIndex(c: AcousticClass, pot: Group): (p: int)
    ensures 0 <= p <= 3
    ensures c == Class(0) ==> p <= 2
    ensures c != Class(0) && c != Class(1) && c != Class(2) ==> p == 0
  {
    if c == Class(0) then
      (if pot.sxBoth > 0 then 2 else if pot.dx > 0 || pot.outside > 0 then 1 else 0)
    else if c == Class(1) || c == Class(2) then
      (if pot.sxBoth > 0 then 3 else if pot.dx > 0 then 2 else if pot.outside > 0 then 1 else 0)
    else 0
  }

  /** Crack part of `calcola_indice_per_riga` for acoustic class `c`. */
  function CrackIndex(c: AcousticClass, crk: Group): (k: int)
    ensures 0 <= k <= 3
    ensures c == Class(0) ==> k <= 1
    ensures c != Class(0) && c != Class(1) && c != Class(2) ==> k == 0
  {
    if c == Class(0) then
      (if crk.sxBoth > 0 || crk.dx + crk.outside > 6 then 1 else 0)
    else if c == Class(1) then
      var total := crk.sxBoth + crk.dx + crk.outside;
      if crk.sxBoth > 6 then 3
      else if crk.sxBoth > 0 && total > 6 then 3
      else if crk.sxBoth > 0 then 2
      else if total > 6 then 2
      else if crk.dx > 0 then 1
      else 0
    else if c == Class(2) then
      if crk.sxBoth > 0 then 3
      else if crk.dx > 6 then 3
      else if crk.dx + crk.outside > 6 then 3
      else if crk.dx > 0 then 2
      else if crk.outside > 0 then 1
      else 0
    else 0
  }

  /** A positive class, compared as a number (NaN is not positive). */
  predicate Positive(c: AcousticClass)
  {
    c.Class? && c.value > 0
  }

  /** The final grading of `x = pot + 0.8·crk`, with `x` given in tenths. */
  function Grade(x: int, c: AcousticClass): (r: int)
    ensures 0 <= r <= 3
    ensures x == 0 ==> (r == 1 <==> Positive(c))
    ensures 10 <= x < 25 ==> r == 1
  {
    if x == 0 && Positive(c) then 1
    else if 0 < x < 10 then 0
    else if 10 <= x < 25 then 1
    else if 25 <= x < 45 then 2
    else if 45 <= x <= 60 then 3
    else 0
  }

  /** No damage in either group, as the `> 0` tests of the source see it. */
  predicate NoDamage(pot: Group, crk: Group)
  {
    pot.sxBoth <= 0 && pot.dx <= 0 && pot.outside <= 0
      && crk.sxBoth <= 0 && crk.dx <= 0 && crk.outside <= 0
  }

  /** `calcola_indice_per_riga`. */
  function PerRow(c: AcousticClass, pot: Group, crk: Group): (r: int)
    ensures 0 <= r <= 3
    ensures c == Class(0) ==> r <= 2
    ensures Positive(c) && NoDamage(pot, crk) ==> r == 1
    ensures c == Missing ==> r == 0
  {
    Grade(10 * PotIndex(c, pot) + 8 * CrackIndex(c, crk), c)
  }

  /**
   * Index 1 for a positive class with no damage is not a lower bound: a
   * single crack on the right wheel path brings class 1 down to 0.
   */
  lemma PerRowMinorCrack()
    ensures PerRow(Class(1), Group(0, 0, 0), Group(0, 0, 0)) == 1
    ensures PerRow(Class(1), Group(0, 0, 0), Group(0, 1, 0)) == 0
  {
  }

  /** For class 3 or above, and for class -1, the damage is not looked at. */
  lemma PerRowOtherClasses(c: int, pot: Group, crk: Group)
    requires c >= 3 || c == -1
    ensures PerRow(Class(c), pot, crk) == (if c > 0 then 1 else 0)
  {
  }
}
