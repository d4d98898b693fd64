/** `fia_state`: one state's FIA conditions in long form, optionally
    cleaned, renamed to the project's vocabulary, projected onto six
    columns and tagged with the state code. */
module FiaState {
  import opened Values
  import opened Rows
  import opened Tables

  /** The columns the cleaning mask reads, in the order it reads them. */
  const CleanColumns: seq<string> :=
    ["adj_ag_biomass", "STDAGE", "FLDTYPCD", "DSTRBCD1", "COND_STATUS_CD", "CONDPROP_UNADJ", "INVYR"]

  /** The cleaning mask of one record: positive biomass, a stand age in
      (0, 999), a recorded forest type that is neither 999 nor 950 and at
      most 983, no disturbance, a forested condition on more than 30% of
      the plot, and an inventory year in (2000, 9999). */
  predicate Clean(r: Record)
  {
    && Gt(Get(r, "adj_ag_biomass"), 0.0)
    && Lt(Get(r, "STDAGE"), 999.0)
    && Gt(Get(r, "STDAGE"), 0.0)
    && Get(r, "FLDTYPCD").Some?
    && Ne(Get(r, "FLDTYPCD"), 999.0)
    && Ne(Get(r, "FLDTYPCD"), 950.0)
    && Le(Get(r, "FLDTYPCD"), 983.0)
    && Eq(Get(r, "DSTRBCD1"), 0.0)
    && Eq(Get(r, "COND_STATUS_CD"), 1.0)
    && Gt(Get(r, "CONDPROP_UNADJ"), 0.3)
    && Lt(Get(r, "INVYR"), 9999.0)
    && Gt(Get(r, "INVYR"), 2000.0)
  }

  /** `df[inds]` when cleaning is on: the records the mask keeps, or the
      KeyError of the first mask column the table lacks. */
  function Cleaned(t: LongTable): (r: Result<LongTable, LoadError>)
    ensures r.Err? <==> exists i :: 0 <= i < |CleanColumns| && CleanColumns[i] !in t.columns
    ensures r.Ok? ==> r.value.columns == t.columns && |r.value.rows| <= |t.rows|
  {
    match FirstMissing(CleanColumns, t.columns)
    case Some(c) => Err(KeyError(c))
    case None => Ok(LongTable(t.columns, Filter(t.rows, Apply(t.rows, Clean))))
  }

  /** The renaming applied to the parquet columns. */
  function Renamed(c: string): string
  {
    match c
    case "LAT" => "lat"
    case "LON" => "lon"
    case "adj_ag_biomass" => "biomass"
    case "STDAGE" => "age"
    case "INVYR" => "year"
    case "FLDTYPCD" => "type_code"
    case _ => c
  }

  /** The columns kept after renaming, in this order. */
  const Selected: seq<string> := ["lat", "lon", "age", "biomass", "year", "type_code"]

  lemma StateNotSelected()
    ensures forall name :: name in Selected ==> name != "state"
  {
  }

  /** Two parquet columns carry one name after renaming. `.filter` then
      reindexes an axis with a repeated label, which pandas refuses with a
      ValueError; every new name of the renaming is one of the filter's
      items, so no collision survives. */
  predicate RenameCollides(columns: seq<string>)
  {
    exists i, j :: 0 <= i < j < |columns| && Renamed(columns[i]) == Renamed(columns[j])
  }

  /** The first parquet column whose new name is `name`. */
  function SourceOf(columns: seq<string>, name: string): (c: Option<string>)
    ensures c.Some? <==> exists i :: 0 <= i < |columns| && Renamed(columns[i]) == name
    ensures c.Some? ==> c.value in columns && Renamed(c.value) == name
  {
    if columns == [] then None
    else if Renamed(columns[0]) == name then Some(columns[0])
    else
      assert forall i :: 1 <= i < |columns| ==> columns[i] == columns[1..][i - 1];
      SourceOf(columns[1..], name)
  }

  /** Without a collision the source of a new name is its only column. */
  lemma SourceUnique(columns: seq<string>, name: string, i: nat)
    requires !RenameCollides(columns) && i < |columns| && Renamed(columns[i]) == name
    ensures SourceOf(columns, name) == Some(columns[i])
  {
    var c := SourceOf(columns, name);
    var m :| 0 <= m < |columns| && columns[m] == c.value;
    assert Renamed(columns[m]) == Renamed(columns[i]);
    assert m == i;
  }

  function ValueAs(r: Record, columns: seq<string>, name: string): Value
  {
    match SourceOf(columns, name)
    case Some(c) => Get(r, c)
    case None => None
  }

  /** `.filter(Selected)` keeps the selected names that exist, in the
      order of `Selected`. */
  function Kept(columns: seq<string>): seq<string>
  {
    Where(Selected, (name: string) => SourceOf(columns, name).Some?)
  }

  /** `.rename(...).filter(...)`: every record becomes a row holding the
      kept columns under their new names. */
  function Projected(t: LongTable): (p: Table)
    ensures |p.rows| == |t.rows|
  {
    var kept := Kept(t.columns);
    var labels := Apply(kept, (name: string) => Named(name));
    var cols := t.columns;
    Table(labels, Apply(t.rows, (r: Record) =>
      Row([], map l | l in labels :: Num(ValueAs(r, cols, l.name)))))
  }

  /** `df[l] = cell`: one value for every row, in a column appended
      after the others unless it exists already. */
  function Assigned(t: Table, l: Label, cell: Cell): (a: Table)
    ensures |a.rows| == |t.rows|
  {
    Table(if l in t.columns then t.columns else t.columns + [l],
          Apply(t.rows, (r: Row) => Row(r.index, r.cells[l := cell])))
  }

  /** The frame `fia_state` reads, cleaned when asked, before renaming. */
  function Source(files: map<string, LongTable>, state: string, clean: bool): (r: Result<LongTable, LoadError>)
    ensures r.Ok? ==> Lower(state) in files && r.value.columns == files[Lower(state)].columns
  {
    var key := Lower(state);
    if key !in files then Err(MissingFile(key))
    else if clean then Cleaned(files[key])
    else Ok(files[key])
  }

  /** What `fia_state(store, state, clean)` returns, or the error it raises:
      it loads exactly when the file exists, the mask columns are there if
      cleaning, and the renaming gives no two columns one name; it keeps at
      most the file's records. */
  function StateTable(files: map<string, LongTable>, state: string, clean: bool): (r: Result<Table, LoadError>)
    ensures Lower(state) !in files ==> r == Err(MissingFile(Lower(state)))
    ensures Lower(state) in files ==>
      (r.Ok? <==> !RenameCollides(files[Lower(state)].columns)
                  && (clean ==> forall i :: 0 <= i < |CleanColumns| ==> CleanColumns[i] in files[Lower(state)].columns))
    ensures r.Ok? ==> Lower(state) in files && |r.value.rows| <= |files[Lower(state)].rows|
  {
    var df :- Source(files, state, clean);
    if RenameCollides(df.columns) then Err(DuplicateLabels)
    else Ok(Assigned(Projected(df), Named("state"), Text(Upper(state))))
  }

  /** The cleaned table is the records that pass the mask, in their order:
      each kept record passes, none that passes is dropped, and records
      keep their relative order. */
  lemma CleanedSelects(t: LongTable)
    requires Cleaned(t).Ok?
    ensures Cleaned(t).value.rows == Where(t.rows, Clean)
    ensures forall i :: 0 <= i < |Cleaned(t).value.rows| ==> Clean(Cleaned(t).value.rows[i])
    ensures forall i :: 0 <= i < |Positions(t.rows, Clean)| ==> Cleaned(t).value.rows[i] == t.rows[Positions(t.rows, Clean)[i]]
    ensures forall i, j :: 0 <= i < j < |Positions(t.rows, Clean)| ==> Positions(t.rows, Clean)[i] < Positions(t.rows, Clean)[j]
    ensures forall k :: 0 <= k < |t.rows| && Clean(t.rows[k]) ==> k in Positions(t.rows, Clean)
  {
    MaskedRows(t.rows, Clean);
    WhereAtPositions(t.rows, Clean);
    PositionsIncrease(t.rows, Clean);
    PositionsComplete(t.rows, Clean);
  }

  /** A record that passes the mask has every mask column present: the
      only comparison NaN passes, `!= 999` and `!= 950` on the forest type,
      is guarded by the explicit NaN test. */
  lemma CleanRecordsArePresent(r: Record)
    requires Clean(r)
    ensures forall i :: 0 <= i < |CleanColumns| ==> CleanColumns[i] in r && r[CleanColumns[i]].Some?
  {
  }

  /** The columns of a state table: the selected names the parquet file
      provides, in the order of `Selected`, then `state`. */
  lemma StateColumns(files: map<string, LongTable>, state: string, clean: bool)
    requires StateTable(files, state, clean).Ok?
    ensures var t := files[Lower(state)];
      StateTable(files, state, clean).value.columns == Apply(Kept(t.columns), (name: string) => Named(name)) + [Named("state")]
    ensures forall name :: name in Kept(files[Lower(state)].columns) <==>
      name in Selected && exists i :: 0 <= i < |files[Lower(state)].columns| && Renamed(files[Lower(state)].columns[i]) == name
  {
    var t := files[Lower(state)];
    var df := Source(files, state, clean).value;
    assert df.columns == t.columns;
    var kept := Kept(t.columns);
    var labels := Apply(kept, (name: string) => Named(name));
    KeptNames(t.columns);
    StateNotSelected();
    assert Projected(df).columns == labels;
    forall i | 0 <= i < |labels| ensures labels[i] != Named("state") {
      assert kept[i] in kept;
      assert labels[i] == Named(kept[i]);
    }
    assert StateTable(files, state, clean).value == Assigned(Projected(df), Named("state"), Text(Upper(state)));
  }

  /** A selected name is kept exactly when some parquet column is renamed to it. */
  lemma KeptNames(columns: seq<string>)
    ensures forall name :: name in Kept(columns) <==>
      name in Selected && exists i :: 0 <= i < |columns| && Renamed(columns[i]) == name
  {
    KeptMembers(columns, Selected);
  }

  lemma {:induction false} KeptMembers(columns: seq<string>, names: seq<string>)
    ensures forall name :: name in Where(names, (n: string) => SourceOf(columns, n).Some?) <==>
      name in names && SourceOf(columns, name).Some?
  {
    if names != [] {
      KeptMembers(columns, names[1..]);
      assert names == [names[0]] + names[1..];
    }
  }

  /** Each row of a projected table holds the renamed values of its record. */
  lemma ProjectedRow(t: LongTable, i: nat, name: string)
    requires i < |t.rows| && name in Kept(t.columns)
    ensures Named(name) in Projected(t).rows[i].cells
    ensures Projected(t).rows[i].cells[Named(name)] == Num(Get(t.rows[i], SourceOf(t.columns, name).value))
  {
    KeptMembers(t.columns, Selected);
    var kept, cols, r := Kept(t.columns), t.columns, t.rows[i];
    var labels := Apply(kept, (n: string) => Named(n));
    var k :| 0 <= k < |kept| && kept[k] == name;
    assert labels[k] == Named(name);
    var cells := map l | l in labels :: Num(ValueAs(r, cols, l.name));
    assert Projected(t).rows[i] == Row([], cells);
    assert cells[Named(name)] == Num(ValueAs(r, cols, name));
  }

  /** The records a state table is built from. */
  lemma SourceRows(files: map<string, LongTable>, state: string, clean: bool)
    requires Source(files, state, clean).Ok?
    ensures Source(files, state, clean).value.rows ==
      if clean then Where(files[Lower(state)].rows, Clean) else files[Lower(state)].rows
  {
    if clean {
      CleanedSelects(files[Lower(state)]);
    }
  }

  /** One row of a state table: the renamed values of its record and the
      state tag. */
  lemma StateRow(df: LongTable, state: string, i: nat, name: string)
    requires i < |df.rows| && name in Kept(df.columns)
    ensures var out := Assigned(Projected(df), Named("state"), Text(Upper(state)));
      && out.rows[i].cells[Named("state")] == Text(Upper(state))
      && Named(name) in out.rows[i].cells
      && out.rows[i].cells[Named(name)] == Num(Get(df.rows[i], SourceOf(df.columns, name).value))
  {
    var p := Projected(df);
    ProjectedRow(df, i, name);
    KeptMembers(df.columns, Selected);
    StateNotSelected();
    assert Named(name) != Named("state");
  }

  /** Row by row, a state table holds the renamed values of the (cleaned)
      records in their order, and the upper-cased state code. */
  lemma StateRows(files: map<string, LongTable>, state: string, clean: bool)
    requires StateTable(files, state, clean).Ok?
    ensures var t := files[Lower(state)];
      var src := if clean then Where(t.rows, Clean) else t.rows;
      var out := StateTable(files, state, clean).value;
      && |out.rows| == |src|
      && forall i :: 0 <= i < |src| ==>
        && out.rows[i].cells[Named("state")] == Text(Upper(state))
        && forall name :: name in Kept(t.columns) ==>
          Named(name) in out.rows[i].cells &&
          out.rows[i].cells[Named(name)] == Num(Get(src[i], SourceOf(t.columns, name).value))
  {
    var t := files[Lower(state)];
    var df := Source(files, state, clean).value;
    SourceRows(files, state, clean);
    var out := StateTable(files, state, clean).value;
    assert out == Assigned(Projected(df), Named("state"), Text(Upper(state)));
    forall i | 0 <= i < |df.rows|
      ensures out.rows[i].cells[Named("state")] == Text(Upper(state))
      ensures forall name :: name in Kept(t.columns) ==>
          Named(name) in out.rows[i].cells &&
          out.rows[i].cells[Named(name)] == Num(Get(df.rows[i], SourceOf(t.columns, name).value))
    {
      assert out.rows[i] == Row(Projected(df).rows[i].index, Projected(df).rows[i].cells[Named("state") := Text(Upper(state))]);
      forall name | name in Kept(t.columns)
        ensures Named(name) in out.rows[i].cells
        ensures out.rows[i].cells[Named(name)] == Num(Get(df.rows[i], SourceOf(t.columns, name).value))
      {
        StateRow(df, state, i, name);
      }
    }
  }

  /** Without cleaning no record is dropped: an existing file without a
      rename collision loads with every record. */
  lemma UncleanedKeepsEveryRecord(files: map<string, LongTable>, state: string)
    requires Lower(state) in files
    ensures StateTable(files, state, false).Ok? <==> !RenameCollides(files[Lower(state)].columns)
    ensures StateTable(files, state, false).Ok? ==>
      |StateTable(files, state, false).value.rows| == |files[Lower(state)].rows|
  {
  }

  /** The state code is case-insensitive: any spelling loads the same file
      and tags it with the same upper-case code. */
  lemma StateCodeCaseInsensitive(files: map<string, LongTable>, state: string, clean: bool)
    ensures StateTable(files, state, clean) == StateTable(files, Upper(state), clean)
  {
    CaseForms(state);
  }
}
