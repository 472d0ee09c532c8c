/** The feature pipeline of backend/models/LSTM/LSTM-2.py: Argo column
    normalisation, the positional MLD column, the training windows and the
    feature matrix. */
module MldPredictor {
  import opened Wrappers
  import opened ArgoFrame
  import Seqs

  // ------------------------------------------------ normalize_argo_columns

  /** The labels of the variables for which neither the adjusted nor the raw
      column exists, built by three `if`s in pressure, temperature, salinity order. */
  function MissingVariables(columns: seq<string>): (r: seq<string>)
    ensures r == [] <==> ChooseAll(columns).Some?
    ensures PresLabel in r <==> ChooseColumn(columns, "pres").None?
    ensures TempLabel in r <==> ChooseColumn(columns, "temp").None?
    ensures PsalLabel in r <==> ChooseColumn(columns, "psal").None?
    ensures Seqs.IsSubseq(r, [PresLabel, TempLabel, PsalLabel])
  {
    var p := if ChooseColumn(columns, "pres").None? then [PresLabel] else [];
    var t := if ChooseColumn(columns, "temp").None? then [TempLabel] else [];
    var s := if ChooseColumn(columns, "psal").None? then [PsalLabel] else [];
    LabelsSubseq(p, t, s);
    p + t + s
  }

  lemma LabelsSubseq(p: seq<string>, t: seq<string>, s: seq<string>)
    requires p == [] || p == [PresLabel]
    requires t == [] || t == [TempLabel]
    requires s == [] || s == [PsalLabel]
    ensures Seqs.IsSubseq(p + t + s, [PresLabel, TempLabel, PsalLabel])
  {
    var all := [PresLabel, TempLabel, PsalLabel];
    assert all[1..] == [TempLabel, PsalLabel] && all[1..][1..] == [PsalLabel];
    assert Seqs.IsSubseq(s, [PsalLabel]) by { assert [PsalLabel][1..] == []; }
    assert Seqs.IsSubseq(t + s, all[1..]) by {
      if t == [] { assert t + s == s; } else { assert (t + s)[0] == TempLabel && (t + s)[1..] == s; }
    }
    if p == [] { assert p + t + s == t + s; } else { assert (p + t + s)[0] == PresLabel && (p + t + s)[1..] == t + s; }
  }

  /** `pd.to_numeric(x, errors="coerce").astype(float)` on one cell: text that
      is not a decimal number becomes NaN. */
  function CoerceFloat(c: Cell): (r: Cell)
    ensures r.Missing? || r.Real?
    ensures c.Int? ==> r == Real(c.i as real)
    ensures c.Real? || c.Missing? ==> r == c
    ensures c.Text? ==> (r == Missing <==> ParseDecimal(c.s).None?)
    ensures c.Text? && ParseDecimal(c.s).Some? ==> r == Real(ParseDecimal(c.s).value)
  {
    match c
    case Missing => Missing
    case Int(i) => Real(i as real)
    case Real(x) => Real(x)
    case Text(s) => match ParseDecimal(s) case Some(v) => Real(v) case None => Missing
  }

  /** For example, `"12.5"` becomes 12.5, `"-3"` becomes -3, and `"n/a"`
      becomes NaN. */
  lemma CoerceTextExamples()
    ensures CoerceFloat(Text("12.5")) == Real(12.5)
    ensures CoerceFloat(Text("-3")) == Real(-3.0)
    ensures CoerceFloat(Text("n/a")) == Missing
  {
    CoercePointExample();
    CoerceNegativeExample();
    ParseRejectsOther("n/a", 0);
  }

  lemma CoercePointExample()
    ensures ParseDecimal("12.5") == Some(12.5)
  {
    ParsePointDigits("12", "5");
    assert "12" + "." + "5" == "12.5";
    assert NatOfDigits("12") == 12 by { assert "12"[..1] == "1" && "1"[..0] == ""; }
    assert NatOfDigits("5") == 5 by { assert "5"[..0] == ""; }
  }

  lemma CoerceNegativeExample()
    ensures ParseDecimal("-3") == Some(-3.0)
  {
    ParseDigits("3");
    ParseSigned("3");
    assert "-" + "3" == "-3";
    assert NatOfDigits("3") == 3 by { assert "3"[..0] == ""; }
  }

  function CoercedColumn(t: Frame, source: string): (r: seq<Cell>)
    ensures |r| == |t.rows| && forall i :: 0 <= i < |r| ==> r[i] == CoerceFloat(Get(t.rows[i], source))
  {
    seq(|t.rows|, i requires 0 <= i < |t.rows| => CoerceFloat(Get(t.rows[i], source)))
  }

  /** The QC-filtered frame with `depth`, `temperature` and `salinity`
      written from the chosen columns; every other cell is kept. */
  function Converted(kept: Frame, ch: Chosen): (out: Frame)
    ensures forall c :: c in out.columns <==> c in kept.columns || c in ["depth", "temperature", "salinity"]
    ensures |out.rows| == |kept.rows|
    ensures forall i :: 0 <= i < |out.rows| ==>
              Get(out.rows[i], "depth") == CoerceFloat(Get(kept.rows[i], ch.pres))
              && Get(out.rows[i], "temperature") == CoerceFloat(Get(kept.rows[i], ch.temp))
              && Get(out.rows[i], "salinity") == CoerceFloat(Get(kept.rows[i], ch.psal))
              && forall c :: c in kept.rows[i] && c !in ["depth", "temperature", "salinity"] ==>
                   c in out.rows[i] && out.rows[i][c] == kept.rows[i][c]
  {
    var withDepth := AddColumn(kept, "depth", CoercedColumn(kept, ch.pres));
    var withTemp := AddColumn(withDepth, "temperature", CoercedColumn(kept, ch.temp));
    AddColumn(withTemp, "salinity", CoercedColumn(kept, ch.psal))
  }

  /** Everything before the date and profile-id handling: the missing-variable
      error, the QC filter, the three converted columns, and the
      latitude/longitude check (made after the conversion, on a frame whose
      other columns are those of the input). */
  function NormalizeArgoColumns(df: Frame): (r: Result<Frame, PyError>)
    ensures MissingVariables(df.columns) != [] ==>
              r == Failure(ValueError("Argo variables missing: " + PyListRepr(MissingVariables(df.columns))))
    ensures MissingVariables(df.columns) == [] && ("latitude" !in df.columns || "longitude" !in df.columns) ==>
              r == Failure(ValueError("latitude/longitude columns required"))
    ensures r.Success? <==> MissingVariables(df.columns) == [] && "latitude" in df.columns && "longitude" in df.columns
    ensures r.Success? ==> r.value == Converted(QcFilter(df, ChooseAll(df.columns).value), ChooseAll(df.columns).value)
  {
    var missing := MissingVariables(df.columns);
    if missing != [] then
      Failure(ValueError("Argo variables missing: " + PyListRepr(missing)))
    else
      var ch := ChooseAll(df.columns).value;
      var out := Converted(QcFilter(df, ch), ch);
      if "latitude" !in out.columns || "longitude" !in out.columns then
        Failure(ValueError("latitude/longitude columns required"))
      else
        Success(out)
  }

  // ------------------------------------------------ calculate_mld_simple

  /** The `for _, grp in df.groupby("profile_id")` loop: profiles in ascending
      id order, each sorted by depth, each contributing its MLD once per level.
      The list is exactly as long as the frame, so the final assignment
      `df["mixed_layer_depth"] = mld_vals` succeeds, but it is positional:
      see `ArgoFrame.PositionalMldMisaligned`. */
  method CalculateMldSimple(levels: seq<Level>, threshold: real, refDepth: real) returns (mldVals: seq<real>)
    ensures mldVals == GroupedMld(levels, ProfileIds(levels), threshold, refDepth)
    ensures |mldVals| == |levels|
  {
    mldVals := VisitGroups(levels, ProfileIds(levels), threshold, refDepth);
    GroupedMldCoversEveryRow(levels, threshold, refDepth);
  }

  /** The loop body of `calculate_mld_simple` run over the groups `pids` in
      order: each group is sorted by depth and its MLD is appended once per
      level. */
  method VisitGroups(levels: seq<Level>, pids: seq<int>, threshold: real, refDepth: real) returns (mldVals: seq<real>)
    ensures mldVals == GroupedMld(levels, pids, threshold, refDepth)
  {
    mldVals := [];
    var n := 0;
    while n < |pids|
      invariant 0 <= n <= |pids|
      invariant mldVals == GroupedMld(levels, pids[..n], threshold, refDepth)
    {
      GroupedMldSnoc(levels, pids, n, threshold, refDepth);
      var g := SortByDepth(Group(levels, pids[n]));
      if |g| != 0 {
        var mld := ProfileMld(g, threshold, refDepth);
        mldVals := mldVals + Seqs.Repeat(mld, |g|);
      }
      n := n + 1;
    }
    assert pids[..n] == pids;
  }

  // --------------------------------------------------- create_sequences

  /** Sliding windows of `timeSteps` consecutive rows, each paired with the
      label of the row right after it. `y[i + time_steps]` must exist for every
      window, which is what the precondition asks. */
  method CreateSequences<T>(x: seq<T>, y: seq<T>, timeSteps: nat) returns (xs: seq<seq<T>>, ys: seq<T>)
    requires |x| <= timeSteps || |x| <= |y|
    ensures |xs| == |ys| == (if |x| > timeSteps then |x| - timeSteps else 0)
    ensures forall i :: 0 <= i < |xs| ==> |xs[i]| == timeSteps && xs[i] == x[i..i + timeSteps]
    ensures forall i :: 0 <= i < |ys| ==> i + timeSteps < |x| && ys[i] == y[i + timeSteps]
    ensures forall i :: 0 <= i < |xs| - 1 && timeSteps > 0 ==> xs[i + 1][..timeSteps - 1] == xs[i][1..]
  {
    xs, ys := [], [];
    var i := 0;
    while i < |x| - timeSteps
      invariant 0 <= i && (|x| > timeSteps ==> i <= |x| - timeSteps) && (|x| <= timeSteps ==> i == 0)
      invariant |xs| == |ys| == i
      invariant forall k :: 0 <= k < i ==> xs[k] == x[k..k + timeSteps] && ys[k] == y[k + timeSteps]
    {
      xs := xs + [x[i..i + timeSteps]];
      ys := ys + [y[i + timeSteps]];
      i := i + 1;
    }
    forall k | 0 <= k < |xs| - 1 && timeSteps > 0
      ensures xs[k + 1][..timeSteps - 1] == xs[k][1..]
    {
      assert xs[k + 1][..timeSteps - 1] == x[k + 1..k + timeSteps];
      assert xs[k][1..] == x[k + 1..k + timeSteps];
    }
  }

  // --------------------------------------------------- prepare_features

  const NoFeaturesMessage := "No valid feature columns found after normalization"

  /** The feature-matrix half of `prepare_features`, on the numeric frame. */
  function PrepareFeatures(t: Table<Num>): (r: Result<(seq<seq<Num>>, seq<Num>), PyError>)
    ensures UsedFeatures(t.columns) == [] ==> r == Failure(ValueError(NoFeaturesMessage))
    ensures r.Success? <==> UsedFeatures(t.columns) != [] && MldColumn in t.columns
    ensures r.Success? ==>
              var (xs, ys) := r.value;
              var samples := Samples(t, UsedFeatures(t.columns));
              |xs| == |ys| && (forall k :: 0 <= k < |xs| ==> IsClean(Sample(xs[k], ys[k])))
              && Seqs.IsSubseq(Zip(xs, ys), samples)
              && (forall s :: multiset(Zip(xs, ys))[s] == if IsClean(s) then multiset(samples)[s] else 0)
  {
    FeatureMatrix(t, NoFeaturesMessage)
  }

  /** A normalised frame carries depth, temperature, salinity, latitude and
      longitude; with the month and day-of-year columns that follow, all seven
      features are used, so the no-feature error cannot be raised on that path. */
  lemma NormalizedFrameUsesAllFeatures(df: Frame)
    requires MissingVariables(df.columns) == [] && "latitude" in df.columns && "longitude" in df.columns
    ensures NormalizeArgoColumns(df).Success?
    ensures UsedFeatures(NormalizeArgoColumns(df).value.columns + ["month", "day_of_year"]) == FeatureColumns
  {
    var cols := NormalizeArgoColumns(df).value.columns + ["month", "day_of_year"];
    AllFeaturesUsed(cols);
  }
}
