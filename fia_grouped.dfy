/** `fia_state_grouped`: one state's FIA conditions reshaped so that every
    (plot, condition) pair is one row, its repeated inventories spread over
    numbered columns (`INVYR_0`, `INVYR_1`, ...), next to per-pair maxima
    of its site attributes; pairs without a second inventory are dropped. */
module FiaGrouped {
  import opened Values
  import opened Rows
  import opened Tables

  /** The sort keys, in the order `sort_values` reads them. */
  const SortColumns: seq<string> := ["plt_uid", "CONDID", "INVYR"]

  /** The variables spread into numbered columns, in loop order. */
  const WideVars: seq<string> :=
    [ "INVYR", "adj_balive", "adj_mort", "fraction_insect", "fraction_disease",
      "fraction_fire", "fraction_human", "disturb_animal", "disturb_bugs",
      "disturb_disease", "disturb_fire", "disturb_human", "disturb_weather" ]

  /** The site attributes reduced by their maximum over a pair's inventories. */
  const AttrColumns: seq<string> := ["LAT", "LON", "FORTYPCD", "FLDTYPCD", "ELEV", "SLOPE", "ASPECT"]

  // ---------------------------------------------------------------- sorting

  /** `sort_values` order on one column: numbers ascending, NaN last. */
  predicate ValueBefore(a: Value, b: Value)
  {
    a.Some? && (b.None? || a.value < b.value)
  }

  /** The group key of a record: its plot and condition. */
  type Pair = (Value, Value)

  function PairOf(r: Record): Pair
  {
    (Get(r, "plt_uid"), Get(r, "CONDID"))
  }

  predicate PairBefore(p: Pair, q: Pair)
  {
    ValueBefore(p.0, q.0) || (p.0 == q.0 && ValueBefore(p.1, q.1))
  }

  /** The sort key of a record: plot, condition, inventory year. */
  datatype Key = Key(pair: Pair, year: Value)

  function KeyOf(r: Record): Key
  {
    Key(PairOf(r), Get(r, "INVYR"))
  }

  predicate KeyBefore(a: Key, b: Key)
  {
    PairBefore(a.pair, b.pair) || (a.pair == b.pair && ValueBefore(a.year, b.year))
  }

  /** No record sorts before an earlier one. */
  predicate Sorted(s: seq<Record>)
  {
    forall i, j :: 0 <= i < j < |s| ==> !KeyBefore(KeyOf(s[j]), KeyOf(s[i]))
  }

  lemma KeyOrder(a: Key, b: Key, c: Key)
    ensures !KeyBefore(b, a) && !KeyBefore(c, b) ==> !KeyBefore(c, a)
    ensures KeyBefore(a, b) ==> !KeyBefore(b, a)
  {
  }

  lemma PairOrder(p: Pair, q: Pair, r: Pair)
    ensures !PairBefore(q, p) && !PairBefore(r, q) ==> !PairBefore(r, p)
    ensures !PairBefore(p, q) && !PairBefore(q, p) ==> p == q
  {
  }

  /** `r` inserted into a sorted sequence before the first record that does
      not sort before it. */
  function Insert(r: Record, s: seq<Record>): (o: seq<Record>)
    requires Sorted(s)
    ensures Sorted(o)
    ensures multiset(o) == multiset(s) + multiset{r}
  {
    if s == [] || !KeyBefore(KeyOf(s[0]), KeyOf(r)) then
      InsertFront(r, s);
      [r] + s
    else
      var rest := Insert(r, s[1..]);
      assert s == [s[0]] + s[1..];
      InsertBehind(r, s, rest);
      [s[0]] + rest
  }

  /** A record no later than the first of a sorted sequence goes in front. */
  lemma InsertFront(r: Record, s: seq<Record>)
    requires Sorted(s) && (s == [] || !KeyBefore(KeyOf(s[0]), KeyOf(r)))
    ensures Sorted([r] + s)
  {
    forall j | 0 <= j < |s| ensures !KeyBefore(KeyOf(s[j]), KeyOf(r)) {
      if j > 0 {
        KeyOrder(KeyOf(r), KeyOf(s[0]), KeyOf(s[j]));
      }
    }
    forall i, j | 0 <= i < j < |[r] + s| ensures !KeyBefore(KeyOf(([r] + s)[j]), KeyOf(([r] + s)[i])) {
      if i > 0 {
        assert ([r] + s)[i] == s[i - 1] && ([r] + s)[j] == s[j - 1];
      }
    }
  }

  /** The first of a sorted sequence stays in front of the sorted rest with a
      later record inserted. */
  lemma InsertBehind(r: Record, s: seq<Record>, rest: seq<Record>)
    requires Sorted(s) && s != [] && KeyBefore(KeyOf(s[0]), KeyOf(r))
    requires Sorted(rest) && multiset(rest) == multiset(s[1..]) + multiset{r}
    ensures Sorted([s[0]] + rest)
  {
    forall j | 0 <= j < |rest| ensures !KeyBefore(KeyOf(rest[j]), KeyOf(s[0])) {
      assert rest[j] in multiset(rest);
      if rest[j] == r {
        KeyOrder(KeyOf(s[0]), KeyOf(r), KeyOf(r));
      } else {
        assert rest[j] in multiset(s[1..]);
        var m :| 0 <= m < |s[1..]| && s[1..][m] == rest[j];
        assert s[m + 1] == rest[j];
      }
    }
    var o := [s[0]] + rest;
    forall i, j | 0 <= i < j < |o| ensures !KeyBefore(KeyOf(o[j]), KeyOf(o[i])) {
      if i > 0 {
        assert o[i] == rest[i - 1] && o[j] == rest[j - 1];
      }
    }
  }

  /** `sort_values(['plt_uid', 'CONDID', 'INVYR'])`: the same records,
      ordered by key. Records with equal keys keep their order. */
  function SortRows(s: seq<Record>): (o: seq<Record>)
    ensures Sorted(o)
    ensures multiset(o) == multiset(s)
    ensures |o| == |s|
  {
    if s == [] then []
    else
      assert s == [s[0]] + s[1..];
      var o := Insert(s[0], SortRows(s[1..]));
      assert |o| == |multiset(o)|;
      o
  }

  // --------------------------------------------------------------- grouping

  /** Every column the loader reads, in the order it reads them. */
  const Needed: seq<string> := SortColumns + WideVars + AttrColumns

  /** Once every column it reads is present, the loader groups on
      `['plt_uid', 'CONDID']`; the model covers tables whose records all
      carry both keys. A table lacking a column raises a `KeyError` before
      any key is read, whatever its records hold. */
  predicate KeysPresent(t: LongTable)
  {
    FirstMissing(Needed, t.columns).None? ==>
      forall i :: 0 <= i < |t.rows| ==> PairOf(t.rows[i]).0.Some? && PairOf(t.rows[i]).1.Some?
  }

  /** The grouped loader's precondition on a state's file. */
  predicate Keyed(files: map<string, LongTable>, state: string)
  {
    Lower(state) in files ==> KeysPresent(files[Lower(state)])
  }

  /** The group keys of a sorted table never decrease. */
  lemma SortedPairs(rows: seq<Record>)
    requires Sorted(rows)
    ensures forall i, j :: 0 <= i < j < |rows| ==> !PairBefore(PairOf(rows[j]), PairOf(rows[i]))
  {
  }

  /** The groups of a sorted table: the runs of one (plot, condition) pair. */
  function Groups(rows: seq<Record>): (runs: seq<Span>)
    ensures Partition(Apply(rows, PairOf), 0, runs)
  {
    Runs(Apply(rows, PairOf), 0)
  }

  /** A group holds every record of its pair and no other. */
  lemma GroupIsPair(rows: seq<Record>, g: nat, t: nat)
    requires Sorted(rows) && g < |Groups(rows)| && t < |rows|
    ensures PairOf(rows[t]) == PairOf(rows[Groups(rows)[g].lo]) <==> Groups(rows)[g].lo <= t < Groups(rows)[g].hi
  {
    var keys, runs := Apply(rows, PairOf), Groups(rows);
    var lo, hi := runs[g].lo, runs[g].hi;
    SortedPairs(rows);
    if t < lo {
      assert g > 0;
      var before := runs[g - 1].lo;
      assert keys[lo - 1] == keys[before] && keys[lo] != keys[before];
      if t < lo - 1 {
        PairOrder(keys[t], keys[lo - 1], keys[lo]);
      }
      PairOrder(keys[lo - 1], keys[lo], keys[lo]);
    } else if t >= hi {
      assert g + 1 < |runs|;
      assert runs[g + 1].lo == hi;
      assert keys[hi] != keys[lo] && keys[hi - 1] == keys[lo];
      if t > hi {
        PairOrder(keys[lo], keys[hi], keys[t]);
      }
      PairOrder(keys[hi], keys[lo], keys[lo]);
    }
  }

  /** Different groups have different pairs: one output row per pair. */
  lemma GroupsDistinct(rows: seq<Record>, g: nat, h: nat)
    requires Sorted(rows) && g < h < |Groups(rows)|
    ensures PairOf(rows[Groups(rows)[g].lo]) != PairOf(rows[Groups(rows)[h].lo])
  {
    var runs := Groups(rows);
    SpansOrdered(runs, Apply(rows, PairOf), g, h);
    GroupIsPair(rows, g, runs[h].lo);
  }

  /** `cumcount()`: how many earlier records share the pair of record t. */
  function CumCount(rows: seq<Record>, t: nat): nat
    requires t < |rows|
  {
    CountBelow(rows, PairOf(rows[t]), t)
  }

  function CountBelow(rows: seq<Record>, p: Pair, n: nat): (c: nat)
    requires n <= |rows|
    ensures c <= n
  {
    if n == 0 then 0 else CountBelow(rows, p, n - 1) + (if PairOf(rows[n - 1]) == p then 1 else 0)
  }

  /** In a sorted table the cumcount of a record is its offset in its group. */
  lemma CumCountIsOffset(rows: seq<Record>, g: nat, t: nat)
    requires Sorted(rows) && g < |Groups(rows)|
    requires Groups(rows)[g].lo <= t < Groups(rows)[g].hi
    ensures CumCount(rows, t) == t - Groups(rows)[g].lo
  {
    var lo := Groups(rows)[g].lo;
    var p := PairOf(rows[lo]);
    assert PairOf(rows[t]) == p by {
      GroupIsPair(rows, g, t);
    }
    CountInGroup(rows, g, p, t);
  }

  lemma {:induction false} CountInGroup(rows: seq<Record>, g: nat, p: Pair, n: nat)
    requires Sorted(rows) && g < |Groups(rows)| && p == PairOf(rows[Groups(rows)[g].lo])
    requires n <= Groups(rows)[g].hi
    ensures CountBelow(rows, p, n) == if n <= Groups(rows)[g].lo then 0 else n - Groups(rows)[g].lo
  {
    if n > 0 {
      CountInGroup(rows, g, p, n - 1);
      GroupIsPair(rows, g, n - 1);
    }
  }

  // -------------------------------------------------------- pivot and join

  function Size(s: Span): nat
  {
    if s.lo <= s.hi then s.hi - s.lo else 0
  }

  /** The number of numbered columns: the size of the largest group. */
  function Width(runs: seq<Span>): (w: nat)
    ensures forall g :: 0 <= g < |runs| ==> Size(runs[g]) <= w
    ensures w == 0 || exists g :: 0 <= g < |runs| && Size(runs[g]) == w
  {
    if runs == [] then 0
    else
      var w := Width(runs[1..]);
      assert forall g :: 1 <= g < |runs| ==> runs[g] == runs[1..][g - 1];
      if Size(runs[0]) >= w then Size(runs[0]) else w
  }

  /** The value of `v` in the k-th inventory of a group, NaN past its end. */
  function Observation(rows: seq<Record>, s: Span, k: nat, v: string): Value
  {
    if s.lo + k < s.hi <= |rows| then Get(rows[s.lo + k], v) else None
  }

  /** One pivot table: a row per group, a column per inventory number. */
  datatype Pivot = Pivot(name: string, cells: seq<seq<Value>>)

  /** `df.pivot(index=['plt_uid', 'CONDID'], columns='tmp_idx', values=v)`. */
  function PivotOf(rows: seq<Record>, runs: seq<Span>, width: nat, v: string): (p: Pivot)
    ensures p.name == v && |p.cells| == |runs|
    ensures forall g :: 0 <= g < |runs| ==> |p.cells[g]| == width
  {
    Pivot(v, seq(|runs|, g requires 0 <= g < |runs| =>
      seq(width, k requires 0 <= k < width => Observation(rows, runs[g], k, v))))
  }

  /** Every record lands in the cell of its group and its cumcount, and a
      cell past the end of its group is NaN: the pivot has one value per
      cell, so it raises no duplicate-entry error. */
  lemma PivotCells(rows: seq<Record>, width: nat, v: string, g: nat, k: nat)
    requires Sorted(rows) && g < |Groups(rows)| && k < width
    ensures var s := Groups(rows)[g];
      && (k < Size(s) ==> CumCount(rows, s.lo + k) == k && PivotOf(rows, Groups(rows), width, v).cells[g][k] == Get(rows[s.lo + k], v))
      && (k >= Size(s) ==> PivotOf(rows, Groups(rows), width, v).cells[g][k] == None)
  {
    var s := Groups(rows)[g];
    if k < Size(s) {
      CumCountIsOffset(rows, g, s.lo + k);
    }
  }

  /** The first pivot of a variable. */
  function Find(pivots: seq<Pivot>, v: string): (p: Option<Pivot>)
    ensures p.Some? ==> p.value in pivots && p.value.name == v
  {
    if pivots == [] then None
    else if pivots[0].name == v then Some(pivots[0])
    else Find(pivots[1..], v)
  }

  /** The numbered columns of the variables, variable by variable. */
  function WideLabels(vars: seq<string>, width: nat): (ls: seq<Label>)
    ensures forall l: Label :: l in ls <==> l.Indexed? && l.name in vars && l.k < width
  {
    if vars == [] then []
    else
      var here := seq(width, k requires 0 <= k < width => Indexed(vars[0], k));
      assert forall l: Label :: l in here <==> l.Indexed? && l.name == vars[0] && l.k < width by {
        forall l: Label | l.Indexed? && l.name == vars[0] && l.k < width ensures l in here {
          assert here[l.k] == l;
        }
      }
      assert forall v :: v in vars <==> v == vars[0] || v in vars[1..] by {
        assert vars == [vars[0]] + vars[1..];
      }
      here + WideLabels(vars[1..], width)
  }

  /** The columns of the result: the site attributes, then the numbered
      columns of each variable. */
  function Columns(width: nat): (cs: seq<Label>)
    ensures forall l: Label :: l in cs <==>
      (l.Named? && l.name in AttrColumns) || (l.Indexed? && l.name in WideVars && l.k < width)
  {
    var attrs := Apply(AttrColumns, (a: string) => Named(a));
    assert forall l: Label :: l in attrs <==> l.Named? && l.name in AttrColumns by {
      forall l: Label | l.Named? && l.name in AttrColumns ensures l in attrs {
        var i :| 0 <= i < |AttrColumns| && AttrColumns[i] == l.name;
        assert attrs[i] == l;
      }
    }
    attrs + WideLabels(WideVars, width)
  }

  /** The records of a group. */
  function Members(rows: seq<Record>, s: Span): seq<Record>
  {
    if s.lo <= s.hi <= |rows| then rows[s.lo..s.hi] else []
  }

  /** One cell of a joined row: an attribute's maximum over the group
      (`groupby(...).max()`), or the pivot cell of a numbered column. */
  function CellAt(rows: seq<Record>, s: Span, g: nat, pivots: seq<Pivot>, l: Label): Cell
  {
    match l
    case Named(a) => Num(NanMax(Apply(Members(rows, s), ColumnOf(a))))
    case Indexed(v, k) =>
      match Find(pivots, v)
      case Some(p) => if g < |p.cells| && k < |p.cells[g]| then Num(p.cells[g][k]) else Num(None)
      case None => Num(None)
  }

  /** `attrs.join(wide)` for one group: indexed by its pair. */
  function JoinedRow(rows: seq<Record>, runs: seq<Span>, width: nat, pivots: seq<Pivot>, g: nat): Row
    requires g < |runs|
  {
    var s := runs[g];
    var key := if s.lo < |rows| then PairOf(rows[s.lo]) else (None, None);
    var labels := Columns(width);
    Row([key.0, key.1], map l | l in labels :: CellAt(rows, s, g, pivots, l))
  }

  function Joined(rows: seq<Record>, runs: seq<Span>, width: nat, pivots: seq<Pivot>): (js: seq<Row>)
    ensures |js| == |runs|
  {
    seq(|runs|, g requires 0 <= g < |runs| => JoinedRow(rows, runs, width, pivots, g))
  }

  /** `dropna(subset=['INVYR_1'])` keeps a row whose `INVYR_1` is present. */
  predicate HasSecondYear(r: Row)
  {
    Lookup(r, Indexed("INVYR", 1)) != Num(None)
  }

  /** The pivots of the loop, one per variable. */
  function Pivots(rows: seq<Record>, runs: seq<Span>, width: nat, vars: seq<string>): (ps: seq<Pivot>)
    ensures |ps| == |vars| && forall i :: 0 <= i < |vars| ==> ps[i] == PivotOf(rows, runs, width, vars[i])
  {
    seq(|vars|, i requires 0 <= i < |vars| => PivotOf(rows, runs, width, vars[i]))
  }

  /** What `fia_state_grouped(store, state, clean)` returns, or the error it
      raises. `clean` is not read. An error is the missing file, a
      `KeyError` on a column the loader reads, or the one of `Reshaped`. */
  function Grouped(files: map<string, LongTable>, state: string): (r: Result<Table, LoadError>)
    requires Keyed(files, state)
    ensures Lower(state) !in files <==> r == Err(MissingFile(Lower(state)))
    ensures r.Err? && r.error.KeyError? ==> r.error.column in Needed || r.error.column == "INVYR_1"
    ensures r.Ok? ==> Lower(state) in files && r == Reshaped(files[Lower(state)].rows)
  {
    var key := Lower(state);
    if key !in files then Err(MissingFile(key))
    else
      var df := files[key];
      match FirstMissing(Needed, df.columns)
      case Some(c) => Err(KeyError(c))
      case None => Reshaped(df.rows)
  }

  /** Lines past the column look-ups: sort, number, pivot, join and drop.
      A result has an `INVYR_1` column and no row where it is NaN; without
      a pair inventoried twice there is no such column and `dropna` raises. */
  function Reshaped(records: seq<Record>): (r: Result<Table, LoadError>)
    ensures r.Err? ==> r == Err(KeyError("INVYR_1"))
    ensures r.Ok? ==> Indexed("INVYR", 1) in r.value.columns
    ensures r.Ok? ==> forall i :: 0 <= i < |r.value.rows| ==> HasSecondYear(r.value.rows[i])
  {
    var rows := SortRows(records);
    var runs := Groups(rows);
    var width := Width(runs);
    if width < 2 then Err(KeyError("INVYR_1"))
    else
      WideColumn(width, "INVYR", 1);
      Ok(Table(Columns(width), Where(Joined(rows, runs, width, Pivots(rows, runs, width, WideVars)), HasSecondYear)))
  }

  /** The first missing column of two lists read one after the other. */
  lemma {:induction false} FirstMissingAppend(a: seq<string>, b: seq<string>, columns: seq<string>)
    ensures FirstMissing(a + b, columns) == if FirstMissing(a, columns).Some? then FirstMissing(a, columns) else FirstMissing(b, columns)
  {
    if a != [] {
      FirstMissingAppend(a[1..], b, columns);
      assert (a + b)[1..] == a[1..] + b;
    } else {
      assert a + b == b;
    }
  }

  /** The loop over the variables: pivot each in turn and append it to
      `tmp`, stopping at the first variable that is not a column. */
  method PivotLoop(rows: seq<Record>, runs: seq<Span>, width: nat, vars: seq<string>, cols: seq<string>)
    returns (tmp: seq<Pivot>, absent: Option<string>)
    ensures absent == FirstMissing(vars, cols)
    ensures absent.None? ==> tmp == Pivots(rows, runs, width, vars)
  {
    tmp := [];
    for i := 0 to |vars|
      invariant FirstMissing(vars[..i], cols).None?
      invariant tmp == Pivots(rows, runs, width, vars[..i])
    {
      var v := vars[i];
      if v !in cols {
        FirstMissingAppend(vars[..i], vars[i..], cols);
        assert vars[..i] + vars[i..] == vars;
        return tmp, Some(v);
      }
      FirstMissingAppend(vars[..i], [v], cols);
      assert vars[..i + 1] == vars[..i] + [v];
      tmp := tmp + [PivotOf(rows, runs, width, v)];
    }
    assert vars[..|vars|] == vars;
    absent := None;
  }

  /** The loader step by step: sort, number the inventories of each pair,
      pivot each variable in turn into `tmp`, join with the attribute
      maxima and drop the pairs without a second inventory. */
  method LoadGrouped(files: map<string, LongTable>, state: string, clean: bool) returns (r: Result<Table, LoadError>)
    requires Keyed(files, state)
    ensures r == Grouped(files, state)
  {
    var key := Lower(state);
    if key !in files {
      return Err(MissingFile(key));
    }
    var df := files[key];
    var cols := df.columns;
    FirstMissingAppend(SortColumns, WideVars + AttrColumns, cols);
    FirstMissingAppend(WideVars, AttrColumns, cols);
    assert Needed == SortColumns + (WideVars + AttrColumns);
    var missing := FirstMissing(SortColumns, cols);
    if missing.Some? {
      return Err(KeyError(missing.value));
    }
    var rows := SortRows(df.rows);
    var runs := Groups(rows);
    var width := Width(runs);
    var tmp, absent := PivotLoop(rows, runs, width, WideVars, cols);
    if absent.Some? {
      return Err(KeyError(absent.value));
    }
    missing := FirstMissing(AttrColumns, cols);
    if missing.Some? {
      return Err(KeyError(missing.value));
    }
    var joined := Joined(rows, runs, width, tmp);
    if width < 2 {
      return Err(KeyError("INVYR_1"));
    }
    return Ok(Table(Columns(width), Where(joined, HasSecondYear)));
  }

  // ------------------------------------------------------------- meaning

  /** The pivot of a looped variable is found under its name. */
  lemma {:induction false} FindPivot(rows: seq<Record>, runs: seq<Span>, width: nat, vars: seq<string>, v: string)
    requires v in vars
    ensures Find(Pivots(rows, runs, width, vars), v) == Some(PivotOf(rows, runs, width, v))
  {
    var ps := Pivots(rows, runs, width, vars);
    if vars[0] != v {
      FindPivot(rows, runs, width, vars[1..], v);
      assert ps[1..] == Pivots(rows, runs, width, vars[1..]);
    }
  }

  /** A joined row holds a cell for every column. */
  lemma JoinedCell(rows: seq<Record>, runs: seq<Span>, width: nat, pivots: seq<Pivot>, row: Row, g: nat, l: Label)
    requires g < |runs| && row == Joined(rows, runs, width, pivots)[g] && l in Columns(width)
    ensures l in row.cells && row.cells[l] == CellAt(rows, runs[g], g, pivots, l)
  {
    assert row == JoinedRow(rows, runs, width, pivots, g);
  }

  /** A numbered column of a pair's row holds the variable in that
      inventory of the pair, NaN past its last one. */
  lemma WideCell(rows: seq<Record>, runs: seq<Span>, width: nat, row: Row, g: nat, v: string, k: nat)
    requires runs == Groups(rows) && width == Width(runs) && g < |runs|
    requires row == Joined(rows, runs, width, Pivots(rows, runs, width, WideVars))[g]
    requires v in WideVars && k < width
    ensures Indexed(v, k) in row.cells
    ensures k < Size(runs[g]) ==> runs[g].lo + k < |rows| && row.cells[Indexed(v, k)] == Num(Get(rows[runs[g].lo + k], v))
    ensures k >= Size(runs[g]) ==> row.cells[Indexed(v, k)] == Num(None)
    ensures row.cells[Indexed(v, k)] == Num(Observation(rows, runs[g], k, v))
  {
    GroupBounds(rows, runs, g);
    WideColumn(width, v, k);
    FindPivot(rows, runs, width, WideVars, v);
    PivotColumn(rows, runs, width, Pivots(rows, runs, width, WideVars), row, g, v, k);
  }

  /** The numbered cell of a found pivot is that pivot's observation. */
  lemma PivotColumn(rows: seq<Record>, runs: seq<Span>, width: nat, pivots: seq<Pivot>, row: Row, g: nat, v: string, k: nat)
    requires g < |runs| && runs[g].lo < runs[g].hi <= |rows| && k < width
    requires row == Joined(rows, runs, width, pivots)[g] && Indexed(v, k) in Columns(width)
    requires Find(pivots, v) == Some(PivotOf(rows, runs, width, v))
    ensures Indexed(v, k) in row.cells
    ensures row.cells[Indexed(v, k)] == Num(Observation(rows, runs[g], k, v))
    ensures row.cells[Indexed(v, k)] == Num(if k < Size(runs[g]) then Get(rows[runs[g].lo + k], v) else None)
  {
    JoinedCell(rows, runs, width, pivots, row, g, Indexed(v, k));
    var p := PivotOf(rows, runs, width, v);
    PivotCell(rows, runs[g], g, pivots, p, k);
    assert p.cells[g][k] == Observation(rows, runs[g], k, v);
    ObservationIn(rows, runs[g], k, v);
  }

  lemma WideColumn(width: nat, v: string, k: nat)
    requires v in WideVars && k < width
    ensures Indexed(v, k) in Columns(width)
  {
  }

  lemma ObservationIn(rows: seq<Record>, s: Span, k: nat, v: string)
    requires s.lo < s.hi <= |rows|
    ensures Observation(rows, s, k, v) == if k < Size(s) then Get(rows[s.lo + k], v) else None
  {
  }

  lemma PivotCell(rows: seq<Record>, s: Span, g: nat, pivots: seq<Pivot>, p: Pivot, k: nat)
    requires Find(pivots, p.name) == Some(p) && g < |p.cells| && k < |p.cells[g]|
    ensures CellAt(rows, s, g, pivots, Indexed(p.name, k)) == Num(p.cells[g][k])
  {
  }

  /** The values of one column over some records. */
  function ColumnOf(a: string): Record -> Value
  {
    (r: Record) => Get(r, a)
  }

  /** An attribute of a pair's row holds its largest present value over
      the pair's records, NaN when it is never present. */
  lemma AttrCell(rows: seq<Record>, runs: seq<Span>, width: nat, row: Row, g: nat, a: string)
    requires runs == Groups(rows) && width == Width(runs) && g < |runs|
    requires row == Joined(rows, runs, width, Pivots(rows, runs, width, WideVars))[g]
    requires a in AttrColumns
    ensures Named(a) in row.cells
    ensures runs[g].lo < runs[g].hi <= |rows|
    ensures row.cells[Named(a)] == Num(NanMax(Apply(rows[runs[g].lo..runs[g].hi], ColumnOf(a))))
  {
    JoinedCell(rows, runs, width, Pivots(rows, runs, width, WideVars), row, g, Named(a));
    GroupBounds(rows, runs, g);
    assert Members(rows, runs[g]) == rows[runs[g].lo..runs[g].hi];
  }

  /** A group is a non-empty range of records. */
  lemma GroupBounds(rows: seq<Record>, runs: seq<Span>, g: nat)
    requires runs == Groups(rows) && g < |runs|
    ensures runs[g].lo < runs[g].hi <= |rows|
  {
    assert |Apply(rows, PairOf)| == |rows|;
  }

  /** A pair's row is indexed by the pair. */
  lemma RowIndex(rows: seq<Record>, runs: seq<Span>, width: nat, row: Row, g: nat)
    requires runs == Groups(rows) && g < |runs|
    requires row == Joined(rows, runs, width, Pivots(rows, runs, width, WideVars))[g]
    ensures row.index == [PairOf(rows[runs[g].lo]).0, PairOf(rows[runs[g].lo]).1]
  {
    assert row == JoinedRow(rows, runs, width, Pivots(rows, runs, width, WideVars), g);
  }

  /** A pair keeps its row exactly when it has a second inventory with a
      recorded year; pairs inventoried once are always dropped. */
  lemma KeptPairs(rows: seq<Record>, runs: seq<Span>, width: nat, row: Row, g: nat)
    requires runs == Groups(rows) && width == Width(runs) && g < |runs| && width >= 2
    requires row == Joined(rows, runs, width, Pivots(rows, runs, width, WideVars))[g]
    ensures HasSecondYear(row) <==> Size(runs[g]) >= 2 && Observation(rows, runs[g], 1, "INVYR").Some?
  {
    assert WideVars[0] == "INVYR";
    WideCell(rows, runs, width, row, g, "INVYR", 1);
    GroupBounds(rows, runs, g);
    SecondYear(rows, runs[g], row);
  }

  /** A row whose `INVYR_1` cell is the second observation of its group. */
  lemma SecondYear(rows: seq<Record>, s: Span, row: Row)
    requires Indexed("INVYR", 1) in row.cells
    requires row.cells[Indexed("INVYR", 1)] == Num(Observation(rows, s, 1, "INVYR"))
    ensures HasSecondYear(row) <==> Size(s) >= 2 && Observation(rows, s, 1, "INVYR").Some?
  {
  }

  /** The rows of a grouped table are the joined rows of the pairs that have
      a second inventory, one per pair, in key order. */
  lemma GroupedRows(files: map<string, LongTable>, state: string)
    requires Keyed(files, state) && Grouped(files, state).Ok?
    ensures var rows := SortRows(files[Lower(state)].rows);
      var runs := Groups(rows);
      var width := Width(runs);
      var all := Joined(rows, runs, width, Pivots(rows, runs, width, WideVars));
      var out := Grouped(files, state).value;
      && width >= 2
      && out.columns == Columns(width)
      && |out.rows| == |Positions(all, HasSecondYear)|
      && (forall i :: 0 <= i < |out.rows| ==> out.rows[i] == all[Positions(all, HasSecondYear)[i]])
      && (forall i, j :: 0 <= i < j < |out.rows| ==> Positions(all, HasSecondYear)[i] < Positions(all, HasSecondYear)[j])
      && (forall g :: 0 <= g < |all| && HasSecondYear(all[g]) ==> g in Positions(all, HasSecondYear))
  {
    var rows := SortRows(files[Lower(state)].rows);
    var runs := Groups(rows);
    var width := Width(runs);
    var all := Joined(rows, runs, width, Pivots(rows, runs, width, WideVars));
    WhereAtPositions(all, HasSecondYear);
    PositionsIncrease(all, HasSecondYear);
    PositionsComplete(all, HasSecondYear);
  }

  /** Without a pair inventoried twice there is no `INVYR_1` column, and
      `dropna` raises. */
  lemma NoRepeatsRaises(files: map<string, LongTable>, state: string)
    requires Lower(state) in files && Keyed(files, state)
    requires FirstMissing(Needed, files[Lower(state)].columns).None?
    requires forall g :: 0 <= g < |Groups(SortRows(files[Lower(state)].rows))| ==> Size(Groups(SortRows(files[Lower(state)].rows))[g]) < 2
    ensures Grouped(files, state) == Err(KeyError("INVYR_1"))
  {
  }
}
