/** `fia`: load the FIA conditions of one state, of a list of states
    concatenated, or of the 48 conterminous states. */
module Fia {
  import opened Values
  import opened Rows
  import opened Tables
  import opened FiaState
  import opened FiaGrouped

  /** The states `'conus'` stands for. */
  const Conus: seq<string> :=
    [ "AL", "AZ", "AR", "CA", "CO", "CT", "DE", "FL", "GA", "IA", "ID", "IL",
      "IN", "KS", "KY", "LA", "ME", "MA", "MD", "MI", "MN", "MO", "MS", "MT", "NC", "ND", "NE", "NH",
      "NJ", "NM", "NV", "NY", "OH", "OK", "OR", "PA", "RI", "SC", "SD", "TN", "TX",
      "UT", "VT", "VA", "WA", "WV", "WI", "WY" ]

  /** The `states` argument: a string, a list of strings, or any other
      object whose comparison with `'conus'` is plainly false. */
  datatype States = Code(code: string) | Codes(codes: seq<string>) | Other

  /** The grouped loader's precondition on every state of a list. */
  predicate KeyedAll(files: map<string, LongTable>, codes: seq<string>)
  {
    forall i :: 0 <= i < |codes| ==> Keyed(files, codes[i])
  }

  /** The grouped loader's precondition on every state a call loads. */
  predicate KeyedStates(files: map<string, LongTable>, states: States)
  {
    match states
    case Code(s) => Keyed(files, s)
    case Codes(codes) => KeyedAll(files, codes)
    case Other => true
  }

  /** `load_state`: the grouped loader exactly when `group_repeats is True`. */
  function LoadState(files: map<string, LongTable>, state: string, clean: bool, grouped: bool): Result<Table, LoadError>
    requires grouped ==> Keyed(files, state)
  {
    if grouped then Grouped(files, state) else StateTable(files, state, clean)
  }

  /** The loads of the list comprehension, one per code, in list order. */
  function Loads(files: map<string, LongTable>, codes: seq<string>, clean: bool, grouped: bool): (r: seq<Result<Table, LoadError>>)
    requires grouped ==> KeyedAll(files, codes)
    ensures |r| == |codes| && forall i :: 0 <= i < |codes| ==> r[i] == LoadState(files, codes[i], clean, grouped)
  {
    seq(|codes|, i requires 0 <= i < |codes| => LoadState(files, codes[i], clean, grouped))
  }

  /** A list comprehension whose elements may raise: the values in order,
      or the error of the first element that raises. */
  function Collect<T, E(==)>(loads: seq<Result<T, E>>): (r: Result<seq<T>, E>)
    ensures r.Ok? <==> forall i :: 0 <= i < |loads| ==> loads[i].Ok?
    ensures r.Ok? ==> |r.value| == |loads| && forall i :: 0 <= i < |loads| ==> r.value[i] == loads[i].value
    ensures r.Err? ==> exists i :: 0 <= i < |loads| && loads[i].Err? && loads[i].error == r.error && forall j :: 0 <= j < i ==> loads[j].Ok?
  {
    if loads == [] then Ok([])
    else
      var rest := Collect(loads[1..]);
      assert forall i :: 1 <= i < |loads| ==> loads[i] == loads[1..][i - 1];
      if loads[0].Err? then Err(loads[0].error)
      else if rest.Err? then
        var k :| 0 <= k < |loads| - 1 && loads[1..][k].Err? && loads[1..][k].error == rest.error && forall j :: 0 <= j < k ==> loads[1..][j].Ok?;
        assert loads[k + 1] == loads[1..][k];
        Err(rest.error)
      else Ok([loads[0].value] + rest.value)
  }

  /** The labels of `more` not yet in `acc`, appended in their order. */
  function Union(acc: seq<Label>, more: seq<Label>): seq<Label>
    decreases |more|
  {
    if more == [] then acc
    else Union(if more[0] in acc then acc else acc + [more[0]], more[1..])
  }

  /** The union holds the labels of both sides and starts with `acc`. */
  lemma {:induction false} UnionHolds(acc: seq<Label>, more: seq<Label>)
    ensures forall l :: l in Union(acc, more) <==> l in acc || l in more
    ensures |acc| <= |Union(acc, more)| && Union(acc, more)[..|acc|] == acc
    decreases |more|
  {
    if more != [] {
      var next := if more[0] in acc then acc else acc + [more[0]];
      UnionHolds(next, more[1..]);
      assert more == [more[0]] + more[1..];
      var u := Union(next, more[1..]);
      assert u[..|acc|] == u[..|next|][..|acc|];
    }
  }

  /** The columns of `pd.concat` along the rows: the first table's, then
      each new column in the order the tables bring it. */
  function ConcatColumns(ts: seq<Table>): seq<Label>
  {
    if ts == [] then [] else Union(ConcatColumns(ts[..|ts| - 1]), ts[|ts| - 1].columns)
  }

  /** The rows of `pd.concat`: every table's rows, table after table; a
      cell a table does not have reads as NaN. */
  function ConcatRows(ts: seq<Table>): seq<Row>
  {
    if ts == [] then [] else ConcatRows(ts[..|ts| - 1]) + ts[|ts| - 1].rows
  }

  /** `pd.concat(ts)`, which raises on an empty list. */
  function Concat(ts: seq<Table>): Result<Table, LoadError>
  {
    if ts == [] then Err(NothingToConcatenate) else Ok(Table(ConcatColumns(ts), ConcatRows(ts)))
  }

  /** The states a `states` argument names after `'conus'` is expanded. */
  function Expanded(states: States): States
  {
    if states == Code("conus") then Codes(Conus) else states
  }

  /** What `fia(store, states, clean, group_repeats)` returns: a table, the
      error it raises, or `None` for a `states` of any other kind. A list loads only when it is not empty and every one of
      its states loads. */
  function Fia(files: map<string, LongTable>, states: States, clean: bool, groupRepeats: PyObject): (r: Option<Result<Table, LoadError>>)
    requires IsTrue(groupRepeats) ==> KeyedStates(files, Expanded(states))
    ensures r.None? <==> Expanded(states).Other?
    ensures Expanded(states).Codes? && r.Some? && r.value.Ok? ==>
      var codes := Expanded(states).codes;
      |codes| > 0 && forall i :: 0 <= i < |codes| ==> LoadState(files, codes[i], clean, IsTrue(groupRepeats)).Ok?
  {
    var grouped := IsTrue(groupRepeats);
    match Expanded(states)
    case Code(s) => Some(LoadState(files, s, clean, grouped))
    case Codes(codes) => Some(LoadList(files, codes, clean, grouped))
    case Other => None
  }

  /** `pd.concat([load_state(store, state, clean) for state in states])`. */
  function LoadList(files: map<string, LongTable>, codes: seq<string>, clean: bool, grouped: bool): Result<Table, LoadError>
    requires grouped ==> KeyedAll(files, codes)
  {
    var ts :- Collect(Loads(files, codes, clean, grouped));
    Concat(ts)
  }

  // ------------------------------------------------------------- meaning

  /** `'conus'` is the list of the 48 conterminous states. */
  lemma ConusIsTheList(files: map<string, LongTable>, clean: bool, groupRepeats: PyObject)
    requires IsTrue(groupRepeats) ==> KeyedAll(files, Conus)
    ensures Fia(files, Code("conus"), clean, groupRepeats) == Fia(files, Codes(Conus), clean, groupRepeats)
    ensures |Conus| == 48
  {
  }

  /** Any other string loads that one state; anything that is neither a
      string nor a list gives `None`. */
  lemma OneState(files: map<string, LongTable>, s: string, clean: bool, groupRepeats: PyObject)
    requires IsTrue(groupRepeats) ==> Keyed(files, s)
    requires s != "conus"
    ensures Fia(files, Code(s), clean, groupRepeats) == Some(LoadState(files, s, clean, IsTrue(groupRepeats)))
    ensures Fia(files, Other, clean, groupRepeats) == None
  {
  }

  /** Only the object `True` selects the grouped loader: any other value,
      truthy or not, loads the long form. */
  lemma OnlyTrueGroups(files: map<string, LongTable>, states: States, clean: bool, groupRepeats: PyObject)
    requires !IsTrue(groupRepeats)
    ensures Fia(files, states, clean, groupRepeats) == Fia(files, states, clean, PyBool(false))
  {
    assert IsTrue(groupRepeats) == IsTrue(PyBool(false));
  }

  /** The grouped loader does not read `clean`. */
  lemma GroupedIgnoresClean(files: map<string, LongTable>, states: States)
    requires KeyedStates(files, Expanded(states))
    ensures Fia(files, states, true, PyBool(true)) == Fia(files, states, false, PyBool(true))
  {
    match Expanded(states)
    case Code(s) =>
    case Codes(codes) =>
      assert Loads(files, codes, true, true) == Loads(files, codes, false, true);
    case Other =>
  }

  /** An empty list raises instead of giving an empty table. */
  lemma EmptyListRaises(files: map<string, LongTable>, clean: bool, groupRepeats: PyObject)
    ensures Fia(files, Codes([]), clean, groupRepeats) == Some(Err(NothingToConcatenate))
  {
  }

  /** Where the rows of table j start in the concatenation. */
  function Offset(ts: seq<Table>, j: nat): nat
    requires j <= |ts|
  {
    |ConcatRows(ts[..j])|
  }

  /** The concatenation holds every table's rows, table after table, in
      list order: row i of table j sits at the offset of table j plus i. */
  lemma {:induction false} ConcatRowAt(ts: seq<Table>, j: nat, i: nat)
    requires j < |ts| && i < |ts[j].rows|
    ensures Offset(ts, j) + i < |ConcatRows(ts)|
    ensures ConcatRows(ts)[Offset(ts, j) + i] == ts[j].rows[i]
  {
    var init := ts[..|ts| - 1];
    assert ConcatRows(ts) == ConcatRows(init) + ts[|ts| - 1].rows;
    if j < |ts| - 1 {
      assert ts[..j] == init[..j] && ts[j] == init[j];
      ConcatRowAt(init, j, i);
    } else {
      assert ts[..j] == init;
    }
  }

  /** Every column of every table is a column of the concatenation, and it
      has no other; when the first table holds no label twice, its columns
      come first. */
  lemma {:induction false} ConcatColumnsCover(ts: seq<Table>)
    ensures forall l :: l in ConcatColumns(ts) <==> exists j :: 0 <= j < |ts| && l in ts[j].columns
  {
    if ts != [] {
      var init := ts[..|ts| - 1];
      ConcatColumnsCover(init);
      UnionHolds(ConcatColumns(init), ts[|ts| - 1].columns);
      assert forall j :: 0 <= j < |init| ==> init[j] == ts[j];
    }
  }

  /** The first table's columns, when distinct, come first and in order. */
  lemma {:induction false} ConcatColumnsFirst(ts: seq<Table>)
    requires ts != [] && Distinct(ts[0].columns)
    ensures |ts[0].columns| <= |ConcatColumns(ts)| && ConcatColumns(ts)[..|ts[0].columns|] == ts[0].columns
  {
    var init := ts[..|ts| - 1];
    var prev := ConcatColumns(init);
    if |ts| == 1 {
      assert prev == [];
      UnionDistinct([], ts[0].columns);
      assert [] + ts[0].columns == ts[0].columns;
    } else {
      ConcatColumnsFirst(init);
      assert init[0] == ts[0];
      UnionHolds(prev, ts[|ts| - 1].columns);
      assert ConcatColumns(ts)[..|prev|] == prev;
      assert ConcatColumns(ts)[..|ts[0].columns|] == prev[..|ts[0].columns|];
    }
  }

  predicate Distinct(cs: seq<Label>)
  {
    forall i, k :: 0 <= i < k < |cs| ==> cs[i] != cs[k]
  }

  /** Distinct new labels are appended as they are. */
  lemma {:induction false} UnionDistinct(acc: seq<Label>, more: seq<Label>)
    requires Distinct(more)
    requires forall l :: l in more ==> l !in acc
    ensures Union(acc, more) == acc + more
    decreases |more|
  {
    if more != [] {
      var next, rest := acc + [more[0]], more[1..];
      DistinctTail(acc, more);
      UnionDistinct(next, rest);
      calc {
        Union(acc, more);
        { assert more[0] !in acc; }
        Union(next, rest);
        next + rest;
        { assert more == [more[0]] + rest; }
        acc + more;
      }
    }
  }

  lemma DistinctTail(acc: seq<Label>, more: seq<Label>)
    requires more != [] && Distinct(more)
    requires forall l :: l in more ==> l !in acc
    ensures Distinct(more[1..])
    ensures forall l :: l in more[1..] ==> l !in acc + [more[0]]
  {
    var rest := more[1..];
    forall i, k | 0 <= i < k < |rest| ensures rest[i] != rest[k] {
      assert rest[i] == more[i + 1] && rest[k] == more[k + 1];
    }
    forall l | l in rest ensures l !in acc + [more[0]] {
      var k :| 0 <= k < |rest| && rest[k] == l;
      assert more[k + 1] == l;
    }
  }

  /** Loading a list of states without grouping: every state's rows in list
      order, each tagged with its own upper-cased code. */
  lemma ListRowsTagged(files: map<string, LongTable>, codes: seq<string>, clean: bool, ts: seq<Table>, j: nat, i: nat)
    requires LoadList(files, codes, clean, false).Ok?
    requires ts == Collect(Loads(files, codes, clean, false)).value
    requires j < |codes|
    requires i < |StateTable(files, codes[j], clean).value.rows|
    ensures var out := LoadList(files, codes, clean, false).value;
      && Offset(ts, j) + i < |out.rows|
      && out.rows[Offset(ts, j) + i] == StateTable(files, codes[j], clean).value.rows[i]
      && out.rows[Offset(ts, j) + i].cells[Named("state")] == Text(Upper(codes[j]))
  {
    var loads := Loads(files, codes, clean, false);
    assert loads[j] == StateTable(files, codes[j], clean);
    assert ts[j] == StateTable(files, codes[j], clean).value;
    assert LoadList(files, codes, clean, false).value.rows == ConcatRows(ts);
    ConcatRowAt(ts, j, i);
    StateRows(files, codes[j], clean);
  }
}
