/**
 * Failure-carrying values shared by every module of the model.
 * A Python function that returns a value or raises becomes a function
 * returning `Result`; a function that returns a value or `None` becomes
 * one returning `Option`.
 */
module Base {

  datatype Option<+T> = None | Some(value: T)

  /** `Err` carries the name of the Python exception the source would raise. */
  datatype Result<+T> = Ok(value: T) | Err(error: string)

  /** Sum of a sequence of integers, left to right. */
  function Sum(s: seq<int>): int
  {
    if s == [] then 0 else Sum(s[..|s| - 1]) + s[|s| - 1]
  }

  lemma {:induction false} SumAppend(a: seq<int>, b: seq<int>)
    ensures Sum(a + b) == Sum(a) + Sum(b)
    decreases |b|
  {
    if b == [] {
      assert a + b == a;
    } else {
      assert (a + b)[..|a + b| - 1] == a + b[..|b| - 1];
      SumAppend(a, b[..|b| - 1]);
    }
  }

  /** Sum of non-negative numbers is non-negative. */
  lemma {:induction false} SumNonNegative(s: seq<int>)
    requires forall i :: 0 <= i < |s| ==> s[i] >= 0
    ensures Sum(s) >= 0
    decreases |s|
  {
    if s != [] {
      SumNonNegative(s[..|s| - 1]);
    }
  }

  /** Concatenation of a sequence of sequences, in order. */
  function Flatten<T>(ss: seq<seq<T>>): seq<T>
  {
    if ss == [] then [] else Flatten(ss[..|ss| - 1]) + ss[|ss| - 1]
  }

  lemma {:induction false} FlattenAppend<T>(a: seq<seq<T>>, b: seq<seq<T>>)
    ensures Flatten(a + b) == Flatten(a) + Flatten(b)
    decreases |b|
  {
    if b == [] {
      assert a + b == a;
    } else {
      var b' := b[..|b| - 1];
      var last := b[|b| - 1];
      assert (a + b)[..|a + b| - 1] == a + b';
      assert Flatten(a + b) == Flatten(a + b') + last;
      FlattenAppend(a, b');
      Associative(Flatten(a), Flatten(b'), last);
    }
  }

  /** Membership in a non-empty sequence, split at its last element. */
  lemma InLast<T>(s: seq<T>, x: T)
    requires |s| > 0
    ensures x in s <==> x in s[..|s| - 1] || x == s[|s| - 1]
  {
    assert s == s[..|s| - 1] + [s[|s| - 1]];
  }

  lemma Associative<T>(a: seq<T>, b: seq<T>, c: seq<T>)
    ensures (a + b) + c == a + (b + c)
  {
  }

  /**
   * The values of steps that may each raise, in order, or the error of the
   * first that does: a loop that stops at the first exception.
   */
  function AllOk<T>(rs: seq<Result<T>>): (r: Result<seq<T>>)
    ensures r.Ok? ==> |r.value| == |rs|
  {
    if rs == [] then Ok([])
    else
      match AllOk(rs[..|rs| - 1])
      case Err(e) => Err(e)
      case Ok(front) =>
        match rs[|rs| - 1]
        case Err(e) => Err(e)
        case Ok(v) => Ok(front + [v])
  }

  /** All steps succeed exactly when none raises, and then the values are theirs, in order. */
  lemma {:induction false} AllOkValues<T>(rs: seq<Result<T>>)
    ensures AllOk(rs).Ok? <==> forall i :: 0 <= i < |rs| ==> rs[i].Ok?
    ensures AllOk(rs).Ok? ==> forall i :: 0 <= i < |rs| ==> AllOk(rs).value[i] == rs[i].value
    decreases |rs|
  {
    if rs != [] {
      AllOkValues(rs[..|rs| - 1]);
    }
  }

  /** When the steps before step `n - 1` succeed and it raises, the whole run raises its error. */
  lemma {:induction false} AllOkFirstError<T>(rs: seq<Result<T>>, n: nat)
    requires 0 < n <= |rs|
    requires AllOk(rs[..n - 1]).Ok? && rs[n - 1].Err?
    ensures AllOk(rs) == Err(rs[n - 1].error)
    decreases |rs|
  {
    if n < |rs| {
      assert rs[..|rs| - 1][..n - 1] == rs[..n - 1];
      AllOkFirstError(rs[..|rs| - 1], n);
    } else {
      assert rs[..|rs| - 1] == rs[..n - 1];
    }
  }

  /** One more step that succeeds extends the values by its own. */
  lemma AllOkStep<T>(rs: seq<Result<T>>, i: nat, values: seq<T>)
    requires i < |rs| && AllOk(rs[..i]) == Ok(values) && rs[i].Ok?
    ensures AllOk(rs[..i + 1]) == Ok(values + [rs[i].value])
  {
    assert rs[..i + 1][..i] == rs[..i];
  }
}
