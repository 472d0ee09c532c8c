/** The parts of backend/models/LSTM/LSTM.py that differ from LSTM-2.py: the
    missing-variable list built by a comprehension, the QC masks behind
    (always true) column guards, the strict `astype(float)` conversion, and
    the no-feature message. Its `calculate_mld_simple` and `create_sequences`
    are the same as LSTM-2.py's and are modelled once, by
    `MldPredictor.CalculateMldSimple` and `MldPredictor.CreateSequences`. */
module MldPredictorV1 {
  import opened Wrappers
  import opened ArgoFrame
  import Seqs
  import MldPredictor

  // ------------------------------------------------ normalize_argo_columns

  /** `[cname for cname in [(label, col), ...] if cname[1] is None]`, then the labels. */
  function MissingVariables(columns: seq<string>): (r: seq<string>)
    ensures r == MldPredictor.MissingVariables(columns)
  {
    var pairs := [(PresLabel, ChooseColumn(columns, "pres")),
                  (TempLabel, ChooseColumn(columns, "temp")),
                  (PsalLabel, ChooseColumn(columns, "psal"))];
    var missing := Seqs.Filter(pairs, (p: (string, Option<string>)) => p.1.None?);
    FilterOfThree(pairs);
    var a := if pairs[0].1.None? then [pairs[0]] else [];
    var b := if pairs[1].1.None? then [pairs[1]] else [];
    var c := if pairs[2].1.None? then [pairs[2]] else [];
    LabelsAppend(a, b);
    LabelsAppend(a + b, c);
    assert Labels(a) == if pairs[0].1.None? then [PresLabel] else [];
    assert Labels(b) == if pairs[1].1.None? then [TempLabel] else [];
    assert Labels(c) == if pairs[2].1.None? then [PsalLabel] else [];
    Labels(missing)
  }

  /** The labels of a list of (label, column) pairs. */
  function Labels(ps: seq<(string, Option<string>)>): (r: seq<string>)
    ensures |r| == |ps| && forall i :: 0 <= i < |ps| ==> r[i] == ps[i].0
  {
    seq(|ps|, i requires 0 <= i < |ps| => ps[i].0)
  }

  lemma LabelsAppend(a: seq<(string, Option<string>)>, b: seq<(string, Option<string>)>)
    ensures Labels(a + b) == Labels(a) + Labels(b)
  {
  }

  lemma FilterOfThree(pairs: seq<(string, Option<string>)>)
    requires |pairs| == 3
    ensures Seqs.Filter(pairs, (p: (string, Option<string>)) => p.1.None?)
            == (if pairs[0].1.None? then [pairs[0]] else [])
               + (if pairs[1].1.None? then [pairs[1]] else [])
               + (if pairs[2].1.None? then [pairs[2]] else [])
  {
    var f := (p: (string, Option<string>)) => p.1.None?;
    assert pairs[1..][1..][1..] == [];
    assert Seqs.Filter(pairs[1..][1..], f) == if pairs[2].1.None? then [pairs[2]] else [];
    assert Seqs.Filter(pairs[1..], f) == (if pairs[1].1.None? then [pairs[1]] else []) + Seqs.Filter(pairs[1..][1..], f);
  }

  /** `qc_mask(col + "_qc") if col else pd.Series(True)` for each of the three
      chosen columns. */
  predicate RowPassesGuardedQc(columns: seq<string>, chosen: Chosen, row: map<string, Cell>)
  {
    (chosen.pres != "" ==> QcPasses(columns, row, chosen.pres + "_qc"))
    && (chosen.temp != "" ==> QcPasses(columns, row, chosen.temp + "_qc"))
    && (chosen.psal != "" ==> QcPasses(columns, row, chosen.psal + "_qc"))
  }

  /** The guards cannot fail once the columns are chosen, so the mask is the
      one LSTM-2.py applies. */
  function GuardedQcFilter(df: Frame, chosen: Chosen): (r: Frame)
    requires ChooseAll(df.columns) == Some(chosen)
    ensures r == QcFilter(df, chosen)
  {
    Seqs.FilterCongruent(df.rows, (row: map<string, Cell>) => RowPassesGuardedQc(df.columns, chosen, row),
                         (row: map<string, Cell>) => RowPassesQc(df.columns, chosen, row));
    Table(df.columns, Seqs.Filter(df.rows, (row: map<string, Cell>) => RowPassesGuardedQc(df.columns, chosen, row)))
  }

  const ConvertPrefix := "could not convert string to float: '"

  /** `float(x)` for `astype(float)`: text that is not a number raises. */
  function AsFloat(c: Cell): (r: Result<Cell, PyError>)
    ensures r.Success? ==> r.value == MldPredictor.CoerceFloat(c)
    ensures r.Failure? <==> c.Text? && ParseDecimal(c.s).None?
    ensures r.Failure? ==> r.error == ValueError(ConvertPrefix + c.s + "'") && ConvertPrefix <= r.error.message
  {
    match c
    case Text(s) =>
      (match ParseDecimal(s)
       case Some(v) => Success(Real(v))
       case None => Failure(ValueError(ConvertPrefix + s + "'")))
    case _ => Success(MldPredictor.CoerceFloat(c))
  }

  predicate Convertible(c: Cell)
  {
    AsFloat(c).Success?
  }

  /** The first row from `i` on whose cell in `source` cannot be converted,
      or `|rows|` if there is none. */
  function FirstUnconvertible(rows: seq<map<string, Cell>>, source: string, i: nat): (k: nat)
    requires i <= |rows|
    ensures i <= k <= |rows|
    ensures forall j :: i <= j < k ==> Convertible(Get(rows[j], source))
    ensures k < |rows| ==> !Convertible(Get(rows[k], source))
    decreases |rows| - i
  {
    if i == |rows| || !Convertible(Get(rows[i], source)) then i else FirstUnconvertible(rows, source, i + 1)
  }

  /** `out[source].astype(float)`: the first row whose cell cannot be converted
      raises; otherwise the converted column. */
  function FloatColumn(rows: seq<map<string, Cell>>, source: string): (r: Result<seq<Cell>, PyError>)
    ensures r.Success? <==> forall i :: 0 <= i < |rows| ==> Convertible(Get(rows[i], source))
    ensures r.Success? ==>
              |r.value| == |rows| && forall i :: 0 <= i < |rows| ==> r.value[i] == MldPredictor.CoerceFloat(Get(rows[i], source))
    ensures r.Failure? ==>
              exists i :: 0 <= i < |rows| && AsFloat(Get(rows[i], source)) == Failure(r.error)
                          && forall j :: 0 <= j < i ==> Convertible(Get(rows[j], source))
    ensures r.Failure? ==> r.error.ValueError? && ConvertPrefix <= r.error.message
  {
    var k := FirstUnconvertible(rows, source, 0);
    if k < |rows| then
      Failure(AsFloat(Get(rows[k], source)).error)
    else
      Success(seq(|rows|, i requires 0 <= i < |rows| => MldPredictor.CoerceFloat(Get(rows[i], source))))
  }

  /** Every cell the three conversions read can be converted. */
  predicate AllConvertible(kept: Frame, ch: Chosen)
  {
    forall i :: 0 <= i < |kept.rows| ==>
      Convertible(Get(kept.rows[i], ch.pres)) && Convertible(Get(kept.rows[i], ch.temp))
      && Convertible(Get(kept.rows[i], ch.psal))
  }

  /** The three strict conversions, in depth, temperature, salinity order. */
  function ConvertStrict(kept: Frame, ch: Chosen): (r: Result<Frame, PyError>)
    ensures r.Success? <==> AllConvertible(kept, ch)
    ensures r.Success? ==> r.value == MldPredictor.Converted(kept, ch)
    ensures r.Failure? ==> r.error.ValueError? && ConvertPrefix <= r.error.message
    ensures FloatColumn(kept.rows, ch.pres).Failure? ==> r == Failure(FloatColumn(kept.rows, ch.pres).error)
    ensures FloatColumn(kept.rows, ch.pres).Success? && FloatColumn(kept.rows, ch.temp).Failure? ==>
              r == Failure(FloatColumn(kept.rows, ch.temp).error)
    ensures FloatColumn(kept.rows, ch.pres).Success? && FloatColumn(kept.rows, ch.temp).Success?
            && FloatColumn(kept.rows, ch.psal).Failure? ==>
              r == Failure(FloatColumn(kept.rows, ch.psal).error)
  {
    match FloatColumn(kept.rows, ch.pres)
    case Failure(e) => Failure(e)
    case Success(d) =>
      match FloatColumn(kept.rows, ch.temp)
      case Failure(e) => Failure(e)
      case Success(t) =>
        match FloatColumn(kept.rows, ch.psal)
        case Failure(e) => Failure(e)
        case Success(s) =>
          assert d == MldPredictor.CoercedColumn(kept, ch.pres);
          assert t == MldPredictor.CoercedColumn(kept, ch.temp);
          assert s == MldPredictor.CoercedColumn(kept, ch.psal);
          Success(MldPredictor.Converted(kept, ch))
  }

  /** LSTM.py's version, up to the date and profile-id handling. A conversion
      error comes before the latitude/longitude check. */
  function NormalizeArgoColumns(df: Frame): (r: Result<Frame, PyError>)
    ensures MissingVariables(df.columns) != [] ==>
              r == Failure(ValueError("Argo variables missing: " + PyListRepr(MissingVariables(df.columns))))
  {
    var missing := MissingVariables(df.columns);
    if missing != [] then
      Failure(ValueError("Argo variables missing: " + PyListRepr(missing)))
    else
      var ch := ChooseAll(df.columns).value;
      var kept := GuardedQcFilter(df, ch);
      match ConvertStrict(kept, ch)
      case Failure(e) => Failure(e)
      case Success(out) =>
        if "latitude" !in out.columns || "longitude" !in out.columns then
          Failure(ValueError("latitude/longitude columns required"))
        else
          Success(out)
  }

  /** The two versions give the same frame and the same errors, except where a
      kept row holds text that is not a number: LSTM-2.py turns it into NaN
      and LSTM.py raises the conversion error of `astype(float)` before it
      reaches the latitude/longitude check. */
  lemma NormalizeVersionsAgree(df: Frame)
    ensures var ch := ChooseAll(df.columns);
            if ch.Some? && !AllConvertible(QcFilter(df, ch.value), ch.value) then
              NormalizeArgoColumns(df) == Failure(ConvertStrict(QcFilter(df, ch.value), ch.value).error)
              && NormalizeArgoColumns(df).error.ValueError?
              && ConvertPrefix <= NormalizeArgoColumns(df).error.message
              && NormalizeArgoColumns(df).error.message != "latitude/longitude columns required"
            else
              NormalizeArgoColumns(df) == MldPredictor.NormalizeArgoColumns(df)
  {
    var ch := ChooseAll(df.columns);
    if ch.Some? {
      var kept := QcFilter(df, ch.value);
      var conv := ConvertStrict(kept, ch.value);
      if !AllConvertible(kept, ch.value) {
        var m := conv.error.message;
        assert ConvertPrefix <= m;
        assert m[0] == 'c';
      }
    }
  }

  // --------------------------------------------------- prepare_features

  const NoFeaturesMessage := "No valid feature columns found after normalization!"

  /** The feature-matrix half of `prepare_features`, on the numeric frame; it
      differs from LSTM-2.py's only in the message. */
  function PrepareFeatures(t: Table<Num>): (r: Result<(seq<seq<Num>>, seq<Num>), PyError>)
    ensures UsedFeatures(t.columns) == [] ==> r == Failure(ValueError(NoFeaturesMessage))
    ensures r.Success? <==> UsedFeatures(t.columns) != [] && MldColumn in t.columns
    ensures r.Success? ==> r == MldPredictor.PrepareFeatures(t)
  {
    FeatureMatrix(t, NoFeaturesMessage)
  }
}
