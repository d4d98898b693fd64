/** Missing values and the NaN-skipping reductions that xarray and pandas
    apply by default to floating-point data. */
module Values {

  datatype Option<+T> = None | Some(value: T)

  /** Failure-compatible result: `Err` carries the exception the source raises. */
  datatype Result<+T, +E> = Ok(value: T) | Err(error: E) {
    predicate IsFailure() { Err? }
    function PropagateFailure<U>(): Result<U, E>
      requires Err?
    {
      Err(error)
    }
    function Extract(): T
      requires Ok?
    {
      value
    }
  }

  /** One floating-point cell; `None` stands for NaN. */
  type Value = Option<real>

  /** Number of present (non-NaN) cells. */
  function Present(s: seq<Value>): (n: nat)
    ensures n <= |s|
  {
    if s == [] then 0 else (if s[0].Some? then 1 else 0) + Present(s[1..])
  }

  lemma {:induction false} PresentNone(s: seq<Value>)
    ensures Present(s) == 0 <==> forall i :: 0 <= i < |s| ==> s[i].None?
  {
    if s != [] {
      PresentNone(s[1..]);
      assert forall i :: 1 <= i < |s| ==> s[i] == s[1..][i - 1];
    }
  }

  /** `nanmax`: the largest present cell, NaN when every cell is NaN. */
  function NanMax(s: seq<Value>): (m: Value)
    ensures m.None? <==> forall i :: 0 <= i < |s| ==> s[i].None?
    ensures m.Some? ==> exists i :: 0 <= i < |s| && s[i] == m
    ensures m.Some? ==> forall i :: 0 <= i < |s| && s[i].Some? ==> s[i].value <= m.value
  {
    if s == [] then None
    else
      var rest := NanMax(s[1..]);
      assert forall i :: 1 <= i < |s| ==> s[i] == s[1..][i - 1];
      match s[0]
      case None => rest
      case Some(v) => if rest.Some? && rest.value > v then rest else Some(v)
  }

  /** `nansum`: the sum of the present cells; an all-NaN sequence sums to 0. */
  function NanSum(s: seq<Value>): real
  {
    if s == [] then 0.0 else (if s[0].Some? then s[0].value else 0.0) + NanSum(s[1..])
  }

  /** `nanmean`: the mean of the present cells, NaN when none is present. */
  function NanMean(s: seq<Value>): Value
  {
    var n := Present(s);
    if n == 0 then None else Some(NanSum(s) / n as real)
  }

  /** Every present cell lies in [lo, hi]. */
  predicate Bounded(s: seq<Value>, lo: real, hi: real)
  {
    forall i :: 0 <= i < |s| && s[i].Some? ==> lo <= s[i].value <= hi
  }

  /** How far the present cells lie above `c`, in total. */
  function Excess(s: seq<Value>, c: real): real
  {
    if s == [] then 0.0 else (if s[0].Some? then s[0].value - c else 0.0) + Excess(s[1..], c)
  }

  /** The excess over `c` is the sum less `c` once per present cell. */
  lemma {:induction false} ExcessIs(s: seq<Value>, c: real)
    ensures Excess(s, c) == NanSum(s) - Present(s) as real * c
  {
    if s != [] {
      ExcessIs(s[1..], c);
      Distribute(Present(s[1..]) as real, c);
    }
  }

  lemma Distribute(n: real, c: real)
    ensures (n + 1.0) * c == n * c + c
  {
  }

  /** Cells bounded by [lo, hi] lie above lo and below hi in total. */
  lemma {:induction false} ExcessSigns(s: seq<Value>, lo: real, hi: real)
    requires Bounded(s, lo, hi)
    ensures Excess(s, lo) >= 0.0 && Excess(s, hi) <= 0.0
  {
    if s != [] {
      var rest := s[1..];
      assert Bounded(rest, lo, hi) by {
        forall i | 0 <= i < |rest| && rest[i].Some? ensures lo <= rest[i].value <= hi {
          assert rest[i] == s[i + 1];
        }
      }
      ExcessSigns(rest, lo, hi);
    }
  }

  /** A NaN-skipping sum of cells in [lo, hi] lies between count*lo and count*hi. */
  lemma NanSumBounds(s: seq<Value>, lo: real, hi: real)
    requires Bounded(s, lo, hi)
    ensures Present(s) as real * lo <= NanSum(s) <= Present(s) as real * hi
  {
    ExcessSigns(s, lo, hi);
    ExcessIs(s, lo);
    ExcessIs(s, hi);
  }

  lemma QuotientBounds(sum: real, n: real, lo: real, hi: real)
    requires n > 0.0 && n * lo <= sum <= n * hi
    ensures lo <= sum / n <= hi
  {
    assert sum / n * n == sum;
  }

  /** A NaN-skipping mean lies between the smallest and the largest present
      cell, and it is NaN exactly when every cell is NaN. */
  lemma NanMeanBetween(s: seq<Value>, lo: real, hi: real)
    requires Bounded(s, lo, hi)
    ensures NanMean(s).None? <==> forall i :: 0 <= i < |s| ==> s[i].None?
    ensures NanMean(s).Some? ==> lo <= NanMean(s).value <= hi
  {
    NanSumBounds(s, lo, hi);
    PresentNone(s);
    if Present(s) > 0 {
      QuotientBounds(NanSum(s), Present(s) as real, lo, hi);
    }
  }

  /** A Python object, as far as an identity test `o is True` can tell:
      the `True` singleton, `False`, a pandas Series, or anything else. */
  datatype PyObject = PyBool(b: bool) | PySeries(values: seq<Value>) | PyOther

  /** `o is True`: only the `True` singleton itself passes; a Series, even one
      of all-true values, is a different object. */
  predicate IsTrue(o: PyObject)
  {
    o == PyBool(true)
  }
}
