/** Row selection on tables kept as sequences of records: boolean-mask
    indexing (`df[mask]`), selection by a row predicate, and column
    computation row by row. */
module Rows {

  /** `s[mask]`: the elements whose mask entry is true, in their order. */
  function Filter<T>(s: seq<T>, mask: seq<bool>): (r: seq<T>)
    requires |mask| == |s|
    ensures |r| <= |s|
  {
    if s == [] then [] else (if mask[0] then [s[0]] else []) + Filter(s[1..], mask[1..])
  }

  /** The elements that satisfy `p`, in their order. */
  function Where<T>(s: seq<T>, p: T -> bool): (r: seq<T>)
    ensures |r| <= |s|
    ensures forall i :: 0 <= i < |r| ==> p(r[i])
  {
    if s == [] then [] else (if p(s[0]) then [s[0]] else []) + Where(s[1..], p)
  }

  /** `f` applied to every element: a column computed row by row. */
  function Apply<T, U>(s: seq<T>, f: T -> U): (r: seq<U>)
    ensures |r| == |s| && forall i :: 0 <= i < |s| ==> r[i] == f(s[i])
  {
    seq(|s|, i requires 0 <= i < |s| => f(s[i]))
  }

  /** Masking a computed column with a mask computed from the same rows is
      computing the column on the selected rows. */
  lemma {:induction false} MaskedApply<T, U>(s: seq<T>, p: T -> bool, f: T -> U)
    ensures Filter(Apply(s, f), Apply(s, p)) == Apply(Where(s, p), f)
  {
    if s != [] {
      MaskedApply(s[1..], p, f);
      assert Apply(s, f)[1..] == Apply(s[1..], f);
      assert Apply(s, p)[1..] == Apply(s[1..], p);
    }
  }

  /** Masking rows with a mask computed from them is selecting by the predicate. */
  lemma MaskedRows<T>(s: seq<T>, p: T -> bool)
    ensures Filter(s, Apply(s, p)) == Where(s, p)
  {
    MaskedApply(s, p, x => x);
    assert Apply(s, x => x) == s;
    assert Apply(Where(s, p), x => x) == Where(s, p);
  }

  /** Two selections in a row are one selection by the conjunction. */
  lemma {:induction false} WhereWhere<T>(s: seq<T>, p: T -> bool, q: T -> bool, both: T -> bool)
    requires forall x :: both(x) == (p(x) && q(x))
    ensures Where(Where(s, p), q) == Where(s, both)
  {
    if s != [] {
      WhereWhere(s[1..], p, q, both);
      if p(s[0]) {
        assert Where(s, p) == [s[0]] + Where(s[1..], p);
        assert Where(s, p)[0] == s[0] && Where(s, p)[1..] == Where(s[1..], p);
      } else {
        assert Where(s, p) == Where(s[1..], p);
      }
    }
  }

  /** The positions of the elements that satisfy `p`, in increasing order. */
  function Positions<T>(s: seq<T>, p: T -> bool): (idx: seq<nat>)
    ensures |idx| == |Where(s, p)|
    ensures forall i :: 0 <= i < |idx| ==> idx[i] < |s|
  {
    if s == [] then []
    else
      var rest := Positions(s[1..], p);
      (if p(s[0]) then [0] else []) + seq(|rest|, i requires 0 <= i < |rest| => rest[i] + 1)
  }

  /** Selection takes the elements at those positions. */
  lemma {:induction false} WhereAtPositions<T>(s: seq<T>, p: T -> bool)
    ensures forall i :: 0 <= i < |Where(s, p)| ==> Where(s, p)[i] == s[Positions(s, p)[i]]
  {
    if s != [] {
      WhereAtPositions(s[1..], p);
      var w, rest := Where(s[1..], p), Positions(s[1..], p);
      forall i | 0 <= i < |w| ensures w[i] == s[rest[i] + 1] {
        assert s[1..][rest[i]] == s[rest[i] + 1];
      }
    }
  }

  /** The positions increase strictly, so selection keeps the order. */
  lemma {:induction false} PositionsIncrease<T>(s: seq<T>, p: T -> bool)
    ensures forall i, j :: 0 <= i < j < |Positions(s, p)| ==> Positions(s, p)[i] < Positions(s, p)[j]
  {
    if s != [] {
      PositionsIncrease(s[1..], p);
    }
  }

  /** No element that satisfies `p` is left out. */
  lemma {:induction false} PositionsComplete<T>(s: seq<T>, p: T -> bool)
    ensures forall k :: 0 <= k < |s| && p(s[k]) ==> k in Positions(s, p)
  {
    if s != [] {
      PositionsComplete(s[1..], p);
      var rest := Positions(s[1..], p);
      var idx := Positions(s, p);
      forall k | 1 <= k < |s| && p(s[k]) ensures k in idx {
        assert s[1..][k - 1] == s[k];
        var i :| 0 <= i < |rest| && rest[i] == k - 1;
        assert idx[i + (if p(s[0]) then 1 else 0)] == k;
      }
    }
  }


  /** Positions [lo, hi) of a run of equal keys. */
  datatype Span = Span(lo: nat, hi: nat)
  /** The first position after i with another key, or the end of the sequence. */
  function RunEnd<T(==)>(keys: seq<T>, i: nat): (e: nat)
    requires i < |keys|
    ensures i < e <= |keys|
    ensures forall k :: i <= k < e ==> keys[k] == keys[i]
    ensures e < |keys| ==> keys[e] != keys[i]
    decreases |keys| - i
  {
    if i + 1 < |keys| && keys[i + 1] == keys[i] then RunEnd(keys, i + 1) else i + 1
  }

  /** The groups of a sorted key column: the maximal runs of one key, from
      position `from` on. */
  function Runs<T(==)>(keys: seq<T>, from: nat): (runs: seq<Span>)
    requires from <= |keys|
    ensures Partition(keys, from, runs)
    decreases |keys| - from
  {
    if from == |keys| then [] else
      var e := RunEnd(keys, from);
      [Span(from, e)] + Runs(keys, e)
  }

  /** The runs cover [from, |keys|) in order, without gaps, each run holds one
      key, and neighbouring runs hold different keys. */
  predicate Partition<T(==)>(keys: seq<T>, from: nat, runs: seq<Span>)
  {
    && (runs == [] <==> from >= |keys|)
    && (runs != [] ==> runs[0].lo == from && runs[|runs| - 1].hi == |keys|)
    && (forall r :: 0 <= r < |runs| ==> runs[r].lo < runs[r].hi <= |keys|)
    && (forall r :: 0 <= r < |runs| - 1 ==> runs[r].hi == runs[r + 1].lo)
    && (forall r, t :: 0 <= r < |runs| && runs[r].lo <= t < runs[r].hi ==> keys[t] == keys[runs[r].lo])
    && (forall r :: 0 <= r < |runs| - 1 ==> keys[runs[r + 1].lo] != keys[runs[r].lo])
  }

  /** Later runs start after earlier runs end. */
  lemma {:induction false} SpansOrdered<T>(runs: seq<Span>, keys: seq<T>, p: nat, q: nat)
    requires Partition(keys, 0, runs) && p < q < |runs|
    ensures runs[p].hi <= runs[q].lo
    decreases q - p
  {
    if p + 1 < q {
      SpansOrdered(runs, keys, p + 1, q);
    }
  }

  /** The run that contains position t. */
  lemma RunOf<T>(keys: seq<T>, runs: seq<Span>, t: nat) returns (q: nat)
    requires Partition(keys, 0, runs) && t < |keys|
    ensures q < |runs| && runs[q].lo <= t < runs[q].hi
  {
    q := 0;
    while runs[q].hi <= t
      invariant q < |runs| && runs[q].lo <= t
      decreases |runs| - q
    {
      q := q + 1;
    }
  }

}
