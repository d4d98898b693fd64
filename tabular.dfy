/** `drought` and `insects`: the design matrix, mortality target and plot
    metadata of the two FIA mortality models, built from a plot table. */
module Tabular {
  import opened Values
  import opened Rows

  /** One plot record: the columns the two builders read. */
  datatype Plot = Plot(
    lat: Value, lon: Value, typeCode: Value,
    condprop: Value,
    disturbHuman1: Value, disturbFire1: Value, treatmentCutting1: Value,
    pptSumMin: Value, tavgMeanMax: Value,       // climate covariates, evaluation
    pptSumMin1: Value, tavgMeanMax1: Value,     // climate covariates, fitting
    age: Value, year0: Value, year1: Value,
    mort1: Value, balive0: Value, fractionInsect1: Value)

  /** The metadata row `[lat, lon, type_code]`. */
  datatype Meta = Meta(lat: Value, lon: Value, typeCode: Value)

  /** A floating-point target value: NaN, an infinity, or a finite number. */
  datatype Ext = NaN | Inf(negative: bool) | Finite(r: real)

  /** Floating-point `a / b` on finite or NaN operands: division by zero gives
      NaN for 0/0 and a signed infinity otherwise. */
  function Quotient(a: Value, b: Value): (q: Ext)
    ensures q == NaN <==> a.None? || b.None? || (b.value == 0.0 && a.value == 0.0)
    ensures q.Finite? <==> a.Some? && b.Some? && b.value != 0.0
    ensures q.Finite? ==> q.r * b.value == a.value
  {
    if a.None? || b.None? then NaN
    else if b.value != 0.0 then Finite(a.value / b.value)
    else if a.value == 0.0 then NaN
    else Inf(a.value < 0.0)
  }

  /** Floating-point `f * e`: NaN spreads, and an infinity times zero is NaN. */
  function Scale(f: Value, e: Ext): (r: Ext)
    ensures r == NaN <==> f.None? || e == NaN || (e.Inf? && f.value == 0.0)
  {
    if f.None? then NaN
    else match e
      case NaN => NaN
      case Finite(x) => Finite(f.value * x)
      case Inf(neg) => if f.value == 0.0 then NaN else Inf(neg != (f.value < 0.0))
  }

  /** `y < 1` elementwise: false for NaN and for +inf, true for -inf. */
  predicate BelowOne(e: Ext)
  {
    match e
    case NaN => false
    case Inf(neg) => neg
    case Finite(x) => x < 1.0
  }

  /** `v > bound` on a float column: NaN compares false. */
  predicate Above(v: Value, bound: real)
  {
    v.Some? && v.value > bound
  }

  /** `age ** 2`. */
  function Square(v: Value): (r: Value)
    ensures r.Some? <==> v.Some?
  {
    if v.None? then None else Some(v.value * v.value)
  }

  /** `year_1 - year_0`. */
  function Minus(a: Value, b: Value): (r: Value)
    ensures r.Some? <==> a.Some? && b.Some?
  {
    if a.None? || b.None? then None else Some(a.value - b.value)
  }

  /** No NaN in the row: `np.isnan(x).sum(axis=1) == 0`. */
  predicate Complete(row: seq<Value>)
  {
    forall j :: 0 <= j < |row| ==> row[j].Some?
  }

  datatype Model = Drought | Insects

  /** The target: the mortality fraction `mort_1 / balive_0`, times
      `fraction_insect_1` for the insect model. */
  function Target(model: Model, p: Plot): Ext
  {
    match model
    case Drought => Quotient(p.mort1, p.balive0)
    case Insects => Scale(p.fractionInsect1, Quotient(p.mort1, p.balive0))
  }

  function TargetOf(model: Model): Plot -> Ext
  {
    p => Target(model, p)
  }

  function MetaOf(p: Plot): Meta
  {
    Meta(p.lat, p.lon, p.typeCode)
  }

  /** The evaluation covariates of a plot: ppt_sum_min, tavg_mean_max, age,
      age squared, and the requested duration. */
  function EvalRow(p: Plot, duration: real): (row: seq<Value>)
    ensures |row| == 5
  {
    [p.pptSumMin, p.tavgMeanMax, p.age, Square(p.age), Some(duration)]
  }

  /** The fitting covariates of a plot: ppt_sum_min_1, tavg_mean_max_1, age,
      age squared, and the remeasurement interval year_1 - year_0. */
  function FitRow(p: Plot): (row: seq<Value>)
    ensures |row| == 5
  {
    [p.pptSumMin1, p.tavgMeanMax1, p.age, Square(p.age), Minus(p.year1, p.year0)]
  }

  /** A plot enters the fit: more than 30% of it is in the condition, all five
      covariates are present, and the target is defined and below 1. */
  predicate Kept(model: Model, p: Plot)
  {
    && Above(p.condprop, 0.3)
    && Complete(FitRow(p))
    && Target(model, p) != NaN && BelowOne(Target(model, p))
  }

  function KeptBy(model: Model): Plot -> bool
  {
    p => Kept(model, p)
  }

  function ConditionShare(p: Plot): bool
  {
    Above(p.condprop, 0.3)
  }

  /** What a builder returns: `(x, meta)` in evaluation mode, `(x, y, meta)`
      in fitting mode; x has one row of five covariates per plot. */
  datatype Output =
    | Eval(x: seq<seq<Value>>, meta: seq<Meta>)
    | Fit(x: seq<seq<Value>>, y: seq<Ext>, meta: seq<Meta>)

  /** The reference definition of both builders, row by row: every plot in
      evaluation mode, the kept plots, in their order, in fitting mode. x
      has rows of five covariates, aligned with y and meta. */
  function Prepared(df: seq<Plot>, evalOnly: bool, duration: real, model: Model): (out: Output)
    ensures out.Eval? <==> evalOnly
    ensures out.Eval? ==> |out.x| == |out.meta| == |df|
    ensures out.Fit? ==> |out.x| == |out.y| == |out.meta| <= |df|
    ensures forall i :: 0 <= i < |out.x| ==> |out.x[i]| == 5
  {
    if evalOnly then
      Eval(seq(|df|, i requires 0 <= i < |df| => EvalRow(df[i], duration)), Apply(df, MetaOf))
    else
      var kept := Where(df, KeptBy(model));
      Fit(Apply(kept, FitRow), Apply(kept, TargetOf(model)), Apply(kept, MetaOf))
  }

  /** The column of one disturbance flag. */
  function Column(df: seq<Plot>, flag: Plot -> Value): seq<Value>
  {
    Apply(df, flag)
  }

  /** The first mask of the fitting branch: the condition share test, and
      `not (df[flag] is True)` for the three disturbance flags, a Python
      bool that `&` broadcasts over the rows. */
  function FirstMask(df: seq<Plot>): (mask: seq<bool>)
    ensures |mask| == |df|
  {
    var flagsPass :=
      && !IsTrue(PySeries(Column(df, (p: Plot) => p.disturbHuman1)))
      && !IsTrue(PySeries(Column(df, (p: Plot) => p.disturbFire1)))
      && !IsTrue(PySeries(Column(df, (p: Plot) => p.treatmentCutting1)))
      ;
    seq(|df|, i requires 0 <= i < |df| => Above(df[i].condprop, 0.3) && flagsPass)
  }

  /** The disturbance flags never exclude a plot: whatever the flag columns
      hold, the first mask is the condition share test alone. */
  lemma FlagsNeverExclude(df: seq<Plot>)
    ensures FirstMask(df) == Apply(df, ConditionShare)
  {
  }

  /** The working copy of the plot table. pandas frames are columnar: the
      derived `age_squared` and `duration` columns are fields of their own,
      assigned whole, and row selection applies to every column. */
  class Frame {
    var plots: seq<Plot>
    var ageSquared: seq<Value>
    var duration: seq<Value>

    ghost predicate Valid()
      reads this
    {
      |ageSquared| == |plots| && |duration| == |plots|
    }

    /** `df.copy()`; the derived columns read as NaN until assigned. */
    constructor (df: seq<Plot>)
      ensures Valid() && plots == df
      ensures ageSquared == seq(|df|, _ => None) && duration == seq(|df|, _ => None)
    {
      plots := df;
      ageSquared := seq(|df|, _ => None);
      duration := seq(|df|, _ => None);
    }

    /** `df['age_squared'] = df['age'] ** 2`. */
    method DeriveAgeSquared()
      requires Valid()
      modifies this
      ensures Valid() && plots == old(plots) && duration == old(duration)
      ensures forall i :: 0 <= i < |plots| ==> ageSquared[i] == Square(plots[i].age)
    {
      var ps := plots;
      ageSquared := seq(|ps|, i requires 0 <= i < |ps| => Square(ps[i].age));
    }

    /** `df['duration'] = duration`: one value broadcast to every row. */
    method SetDuration(d: real)
      requires Valid()
      modifies this
      ensures Valid() && plots == old(plots) && ageSquared == old(ageSquared)
      ensures forall i :: 0 <= i < |plots| ==> duration[i] == Some(d)
    {
      duration := seq(|plots|, _ => Some(d));
    }

    /** `df['duration'] = df['year_1'] - df['year_0']`. */
    method DeriveDuration()
      requires Valid()
      modifies this
      ensures Valid() && plots == old(plots) && ageSquared == old(ageSquared)
      ensures forall i :: 0 <= i < |plots| ==> duration[i] == Minus(plots[i].year1, plots[i].year0)
    {
      var ps := plots;
      duration := seq(|ps|, i requires 0 <= i < |ps| => Minus(ps[i].year1, ps[i].year0));
    }

    /** `df = df[mask].copy()`: every column keeps the rows the mask selects. */
    method Restrict(mask: seq<bool>)
      requires Valid() && |mask| == |plots|
      modifies this
      ensures Valid()
      ensures plots == Filter(old(plots), mask)
      ensures ageSquared == Filter(old(ageSquared), mask) && duration == Filter(old(duration), mask)
    {
      FilterLengths(plots, ageSquared, mask);
      FilterLengths(plots, duration, mask);
      plots, ageSquared, duration := Filter(plots, mask), Filter(ageSquared, mask), Filter(duration, mask);
    }

    /** `df[fit_vars].values`: the five covariate columns, row by row. */
    function Covariates(fit: bool): (x: seq<seq<Value>>)
      reads this
      requires Valid()
      ensures |x| == |plots| && forall i :: 0 <= i < |x| ==> |x[i]| == 5
    {
      var ps, sq, du := plots, ageSquared, duration;
      seq(|ps|, i requires 0 <= i < |ps| =>
        if fit then [ps[i].pptSumMin1, ps[i].tavgMeanMax1, ps[i].age, sq[i], du[i]]
        else [ps[i].pptSumMin, ps[i].tavgMeanMax, ps[i].age, sq[i], du[i]])
    }
  }

  /** Masking two columns of one length with one mask keeps them of one length. */
  lemma {:induction false} FilterLengths<T, U>(s: seq<T>, t: seq<U>, mask: seq<bool>)
    requires |s| == |t| == |mask|
    ensures |Filter(s, mask)| == |Filter(t, mask)|
  {
    if s != [] {
      FilterLengths(s[1..], t[1..], mask[1..]);
    }
  }

  /** `drought` and `insects`, which differ only in the target: copy the
      table; in evaluation mode derive age squared, set the duration and
      return every row; in fitting mode drop the plots that fail the first
      mask, derive age squared, duration and the target, and keep the rows
      with complete covariates and a defined target below 1. */
  method Prepare(df: seq<Plot>, evalOnly: bool, duration: real, model: Model) returns (out: Output)
    ensures out == Prepared(df, evalOnly, duration, model)
  {
    if evalOnly {
      out := PrepareEval(df, duration, model);
    } else {
      out := PrepareFit(df, duration, model);
    }
  }

  /** The evaluation branch: every plot, with age squared and the requested
      duration. */
  method PrepareEval(df: seq<Plot>, duration: real, model: Model) returns (out: Output)
    ensures out == Prepared(df, true, duration, model)
  {
    var frame := new Frame(df);
    frame.DeriveAgeSquared();
    frame.SetDuration(duration);
    var x := frame.Covariates(false);
    out := Eval(x, Apply(frame.plots, MetaOf));
    assert x == seq(|df|, i requires 0 <= i < |df| => EvalRow(df[i], duration));
  }

  /** The fitting branch: the plots that pass the condition share test, then
      those with complete covariates and a defined target below 1. */
  method PrepareFit(df: seq<Plot>, duration: real, model: Model) returns (out: Output)
    ensures out == Prepared(df, false, duration, model)
  {
    var frame := new Frame(df);
    FlagsNeverExclude(frame.plots);
    frame.Restrict(FirstMask(frame.plots));
    MaskedRows(df, ConditionShare);
    ghost var first := frame.plots;
    assert first == Where(df, ConditionShare);
    frame.DeriveAgeSquared();
    frame.DeriveDuration();
    var y := Apply(frame.plots, TargetOf(model));
    var x := frame.Covariates(true);
    var inds := seq(|x|, i requires 0 <= i < |x| => Complete(x[i]) && y[i] != NaN && BelowOne(y[i]));
    var meta := Filter(Apply(frame.plots, MetaOf), inds);
    out := Fit(Filter(x, inds), Filter(y, inds), meta);
    // the proof: both masks are predicates of the rows they select
    assert x == Apply(first, FitRow);
    assert inds == Apply(first, KeptBy(model));
    FitSelection(df, duration, model, first);
  }

  /** Selecting the kept rows of the plots that pass the condition share
      test is selecting the kept rows of the whole table. */
  lemma FitSelection(df: seq<Plot>, duration: real, model: Model, first: seq<Plot>)
    requires first == Where(df, ConditionShare)
    ensures var inds := Apply(first, KeptBy(model));
      Fit(Filter(Apply(first, FitRow), inds), Filter(Apply(first, TargetOf(model)), inds), Filter(Apply(first, MetaOf), inds))
        == Prepared(df, false, duration, model)
  {
    MaskedApply(first, KeptBy(model), FitRow);
    MaskedApply(first, KeptBy(model), TargetOf(model));
    MaskedApply(first, KeptBy(model), MetaOf);
    WhereWhere(df, ConditionShare, KeptBy(model), KeptBy(model));
  }

  /** `drought(df, eval_only, duration)`. */
  method DroughtFrame(df: seq<Plot>, evalOnly: bool, duration: real) returns (out: Output)
    ensures out == Prepared(df, evalOnly, duration, Drought)
  {
    out := Prepare(df, evalOnly, duration, Drought);
  }

  /** `insects(df, eval_only, duration)`. */
  method InsectsFrame(df: seq<Plot>, evalOnly: bool, duration: real) returns (out: Output)
    ensures out == Prepared(df, evalOnly, duration, Insects)
  {
    out := Prepare(df, evalOnly, duration, Insects);
  }

  /** A drought plot keeps its target exactly when mortality and live basal
      area are present and their ratio is below 1; with no live basal area
      the ratio is an infinity, which passes only when mortality is negative. */
  lemma DroughtTargetKept(p: Plot)
    ensures Target(Drought, p) != NaN && BelowOne(Target(Drought, p)) <==>
              p.mort1.Some? && p.balive0.Some? &&
              (if p.balive0.value != 0.0 then p.mort1.value / p.balive0.value < 1.0 else p.mort1.value < 0.0)
  {
  }

  /** An insect plot keeps its target exactly when the insect fraction times
      the mortality ratio is below 1; an infinite ratio passes only when the
      product is negative infinity. */
  lemma InsectsTargetKept(p: Plot)
    ensures Target(Insects, p) != NaN && BelowOne(Target(Insects, p)) <==>
              p.fractionInsect1.Some? && p.mort1.Some? && p.balive0.Some? &&
              (if p.balive0.value != 0.0 then p.fractionInsect1.value * (p.mort1.value / p.balive0.value) < 1.0
               else p.mort1.value != 0.0 && p.fractionInsect1.value != 0.0
                    && (p.mort1.value < 0.0) != (p.fractionInsect1.value < 0.0))
  {
    var q := Quotient(p.mort1, p.balive0);
    if p.fractionInsect1.Some? && p.mort1.Some? && p.balive0.Some? {
      if p.balive0.value != 0.0 {
        assert q == Finite(p.mort1.value / p.balive0.value);
        assert Target(Insects, p) == Finite(p.fractionInsect1.value * (p.mort1.value / p.balive0.value));
      } else if p.mort1.value != 0.0 {
        assert q == Inf(p.mort1.value < 0.0);
      } else {
        assert q == NaN;
      }
    }
  }

  /** In fitting mode x, y and meta have one entry per kept plot and stay
      aligned: entry i of each comes from the same plot, the plots are taken
      in table order, every one of them is kept, and no kept plot is missing. */
  lemma FitAligned(df: seq<Plot>, duration: real, model: Model)
    ensures Prepared(df, false, duration, model).Fit?
    ensures var out := Prepared(df, false, duration, model);
            var idx := Positions(df, KeptBy(model));
            && |out.x| == |out.y| == |out.meta| == |idx|
            && (forall i :: 0 <= i < |idx| ==>
                  && idx[i] < |df| && Kept(model, df[idx[i]])
                  && out.x[i] == FitRow(df[idx[i]])
                  && out.y[i] == Target(model, df[idx[i]])
                  && out.meta[i] == MetaOf(df[idx[i]]))
            && (forall i, j :: 0 <= i < j < |idx| ==> idx[i] < idx[j])
            && (forall k :: 0 <= k < |df| && Kept(model, df[k]) ==> k in idx)
  {
    var kept := Where(df, KeptBy(model));
    WhereAtPositions(df, KeptBy(model));
    PositionsIncrease(df, KeptBy(model));
    PositionsComplete(df, KeptBy(model));
    assert forall i :: 0 <= i < |kept| ==> KeptBy(model)(kept[i]);
  }

  /** Every fitted row is clean: five present covariates with the fourth the
      square of the third, a target that is defined and below 1. */
  lemma FitRowsClean(df: seq<Plot>, duration: real, model: Model)
    ensures var out := Prepared(df, false, duration, model);
            forall i :: 0 <= i < |out.x| ==>
              && |out.x[i]| == 5 && Complete(out.x[i]) && out.x[i][3] == Square(out.x[i][2])
              && i < |out.y| && out.y[i] != NaN && BelowOne(out.y[i])
  {
    var kept := Where(df, KeptBy(model));
    assert forall i :: 0 <= i < |kept| ==> KeptBy(model)(kept[i]);
  }

  /** Evaluation mode drops no plot: one covariate row and one metadata row
      per plot, in order, with age squared derived and the duration set to
      the argument. */
  lemma EvalKeepsEveryPlot(df: seq<Plot>, duration: real, model: Model)
    ensures var out := Prepared(df, true, duration, model);
            && out.Eval? && |out.x| == |out.meta| == |df|
            && forall i :: 0 <= i < |df| ==>
                 && out.meta[i] == MetaOf(df[i])
                 && out.x[i][..3] == [df[i].pptSumMin, df[i].tavgMeanMax, df[i].age]
                 && out.x[i][3] == Square(df[i].age) && out.x[i][4] == Some(duration)
  {
  }
}
