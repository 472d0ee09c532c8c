/** The data preparation of backend/models/XGBoost/XGBoost-2.py: the column
    selection, the rows without a target, the split into features and
    target, and the cleaning of the feature names for XGBoost. */
module XgbFeatures {
  import opened Wrappers
  import opened ArgoFrame
  import Seqs

  // ------------------------------------------------- column selection

  const ColsOfInterest := ["latitude", "longitude", "juld", "pres_adjusted",
                           "psal_adjusted", "temp_adjusted", "data_mode",
                           "platform_type", "vertical_sampling_scheme",
                           "profile_pres_qc", "profile_temp_qc"]

  const Target := "temp_adjusted"

  /** The row restricted to `columns`. */
  function Restrict(row: map<string, Cell>, columns: seq<string>): (r: map<string, Cell>)
    ensures forall c :: c in r <==> c in row && c in columns
    ensures forall c :: c in r ==> r[c] == row[c]
  {
    map c | c in row && c in columns :: row[c]
  }

  /** `df[[c for c in cols_of_interest if c in df.columns]]`: the columns of
      interest the frame has, in the order of the list, and every row. */
  function SelectColumns(df: Frame): (r: Frame)
    ensures Seqs.IsSubseq(r.columns, ColsOfInterest)
    ensures forall c :: c in r.columns ==> c in ColsOfInterest && c in df.columns
    ensures forall c :: c in ColsOfInterest && c in df.columns ==> c in r.columns
    ensures |r.rows| == |df.rows|
    ensures forall i :: 0 <= i < |r.rows| ==> forall c :: c in r.columns ==> Get(r.rows[i], c) == Get(df.rows[i], c)
    ensures forall i :: 0 <= i < |r.rows| ==> r.rows[i] == Restrict(df.rows[i], r.columns)
  {
    var cols := Seqs.Filter(ColsOfInterest, (c: string) => c in df.columns);
    Table(cols, seq(|df.rows|, i requires 0 <= i < |df.rows| => Restrict(df.rows[i], cols)))
  }

  /** `df.dropna(subset=["temp_adjusted"])`: a `KeyError` without the column,
      else the rows whose target is present, in order. */
  function DropMissingTarget(df: Frame): (r: Result<Frame, PyError>)
    ensures r.Failure? <==> Target !in df.columns
    ensures r.Failure? ==> r.error == KeyError(Target)
    ensures r.Success? ==>
              r.value.columns == df.columns && Seqs.IsSubseq(r.value.rows, df.rows)
              && (forall i :: 0 <= i < |r.value.rows| ==> Get(r.value.rows[i], Target) != Missing)
              && (forall row :: row in df.rows && Get(row, Target) != Missing ==> row in r.value.rows)
    ensures r.Success? ==>
              forall row :: multiset(r.value.rows)[row] == if Get(row, Target) != Missing then multiset(df.rows)[row] else 0
  {
    Seqs.FilterCounts(df.rows, (row: map<string, Cell>) => Get(row, Target) != Missing);
    if Target !in df.columns then Failure(KeyError(Target))
    else Success(Table(df.columns, Seqs.Filter(df.rows, (row: map<string, Cell>) => Get(row, Target) != Missing)))
  }

  /** `X = df.drop(columns=["temp_adjusted"])` and `y = df["temp_adjusted"]`. */
  function SplitTarget(df: Frame): (r: Result<(Frame, seq<Cell>), PyError>)
    ensures r.Failure? <==> Target !in df.columns
    ensures r.Failure? ==> r.error == KeyError(Target)
    ensures r.Success? ==>
              var (x, y) := r.value;
              Target !in x.columns
              && (forall c :: c in df.columns && c != Target ==> c in x.columns)
              && Seqs.IsSubseq(x.columns, df.columns)
              && |x.rows| == |y| == |df.rows|
              && forall i :: 0 <= i < |y| ==>
                   y[i] == Get(df.rows[i], Target) && Target !in x.rows[i]
                   && forall c :: c != Target ==> Get(x.rows[i], c) == Get(df.rows[i], c)
  {
    if Target !in df.columns then Failure(KeyError(Target))
    else
      var cols := Seqs.Filter(df.columns, (c: string) => c != Target);
      var x := Table(cols, seq(|df.rows|, i requires 0 <= i < |df.rows| => df.rows[i] - {Target}));
      var y := seq(|df.rows|, i requires 0 <= i < |df.rows| => Get(df.rows[i], Target));
      Success((x, y))
  }

  /** Selection, then `dropna`, then the split (the date conversion and the
      one-hot encoding in between are not part of this model): the target
      survives the selection exactly when the frame has it, and then the
      split succeeds and no target value is missing. */
  lemma TargetPipeline(df: Frame)
    ensures DropMissingTarget(SelectColumns(df)).Success? <==> Target in df.columns
    ensures DropMissingTarget(SelectColumns(df)).Success? ==>
              var kept := DropMissingTarget(SelectColumns(df)).value;
              SplitTarget(kept).Success?
              && |SplitTarget(kept).value.1| <= |df.rows|
              && forall i :: 0 <= i < |SplitTarget(kept).value.1| ==> SplitTarget(kept).value.1[i] != Missing
  {
    assert Target in ColsOfInterest;
    if Target in df.columns {
      var kept := DropMissingTarget(SelectColumns(df)).value;
      Seqs.SubseqLength(kept.rows, SelectColumns(df).rows);
    }
  }

  // --------------------------------------------------- name cleaning

  predicate IsBracket(c: char)
  {
    c == '[' || c == ']' || c == '<' || c == '>'
  }

  /** The characters Python's `\s` matches in a `str` pattern: those for
      which `str.isspace()` holds. */
  predicate IsPyWhitespace(c: char)
  {
    ('\t' <= c <= '\r') || ('\U{001C}' <= c <= '\U{001F}') || c == ' ' || c == '\U{0085}'
    || c == '\U{00A0}' || c == '\U{1680}' || ('\U{2000}' <= c <= '\U{200A}')
    || c == '\U{2028}' || c == '\U{2029}' || c == '\U{202F}' || c == '\U{205F}' || c == '\U{3000}'
  }

  predicate NotBracket(c: char) { !IsBracket(c) }

  predicate NoBrackets(s: string) { forall i :: 0 <= i < |s| ==> !IsBracket(s[i]) }

  predicate NoWhitespace(s: string) { forall i :: 0 <= i < |s| ==> !IsPyWhitespace(s[i]) }

  /** `.str.replace(r"[\[\]<>]", "", regex=True)`. */
  function RemoveBrackets(s: string): (r: string)
    ensures NoBrackets(r)
    decreases |s|
  {
    if s == [] then []
    else if IsBracket(s[0]) then RemoveBrackets(s[1..])
    else
      var tail := RemoveBrackets(s[1..]);
      assert forall i :: 0 < i < |tail| + 1 ==> ([s[0]] + tail)[i] == tail[i - 1];
      [s[0]] + tail
  }

  /** The substitution is the generic filter on the characters that are not
      brackets. */
  lemma {:induction false} RemoveBracketsIsFilter(s: string)
    ensures RemoveBrackets(s) == Seqs.Filter(s, NotBracket)
    decreases |s|
  {
    if s != [] {
      RemoveBracketsIsFilter(s[1..]);
    }
  }

  /** What the substitution keeps: every character that is not a bracket, in
      the order of the input. */
  lemma RemoveBracketsKeeps(s: string)
    ensures Seqs.IsSubseq(RemoveBrackets(s), s)
    ensures forall c :: c in s && !IsBracket(c) ==> c in RemoveBrackets(s)
    ensures forall c :: multiset(RemoveBrackets(s))[c] == if IsBracket(c) then 0 else multiset(s)[c]
  {
    RemoveBracketsIsFilter(s);
    Seqs.FilterCounts(s, NotBracket);
  }

  /** The end of the whitespace run that starts at or after `k`: the first
      index from `k` on that does not hold whitespace. */
  function SkipRun(s: string, k: nat): (e: nat)
    requires k <= |s|
    ensures k <= e <= |s|
    ensures forall j :: k <= j < e ==> IsPyWhitespace(s[j])
    ensures e < |s| ==> !IsPyWhitespace(s[e])
    decreases |s| - k
  {
    if k < |s| && IsPyWhitespace(s[k]) then SkipRun(s, k + 1) else k
  }

  /** The substitution applied to `s[i..]`: scanning left to right, each
      longest run of whitespace becomes one underscore. */
  function CollapseFrom(s: string, i: nat): (r: string)
    requires i <= |s|
    ensures NoWhitespace(r)
    ensures (forall j :: i <= j < |s| ==> !IsBracket(s[j])) ==> NoBrackets(r)
    decreases |s| - i
  {
    if i == |s| then []
    else
      var head := if IsPyWhitespace(s[i]) then '_' else s[i];
      var tail := CollapseFrom(s, if IsPyWhitespace(s[i]) then SkipRun(s, i + 1) else i + 1);
      assert forall j :: 0 < j < |tail| + 1 ==> ([head] + tail)[j] == tail[j - 1];
      [head] + tail
  }

  /** `.str.replace(r"\s+", "_", regex=True)`. */
  function CollapseWhitespace(s: string): (r: string)
    ensures NoWhitespace(r)
    ensures NoBrackets(s) ==> NoBrackets(r)
  {
    CollapseFrom(s, 0)
  }

  /** The name XGBoost is given for a feature column. */
  function CleanName(s: string): (r: string)
    ensures NoBrackets(r) && NoWhitespace(r)
  {
    CollapseWhitespace(RemoveBrackets(s))
  }

  /** `X.columns = ...` over all feature names. */
  function CleanColumnNames(columns: seq<string>): (r: seq<string>)
    ensures |r| == |columns|
    ensures forall i :: 0 <= i < |r| ==> r[i] == CleanName(columns[i]) && NoBrackets(r[i]) && NoWhitespace(r[i])
  {
    seq(|columns|, i requires 0 <= i < |columns| => CleanName(columns[i]))
  }

  // ------------------------------------------------ cleaning lemmas

  lemma CollapseWithoutWhitespace(s: string)
    requires NoWhitespace(s)
    ensures CollapseWhitespace(s) == s
  {
    CollapseFromWithoutWhitespace(s, 0);
    assert s[0..] == s;
  }

  lemma {:induction false} CollapseFromWithoutWhitespace(s: string, i: nat)
    requires i <= |s| && NoWhitespace(s)
    ensures CollapseFrom(s, i) == s[i..]
    decreases |s| - i
  {
    if i < |s| {
      CollapseFromWithoutWhitespace(s, i + 1);
      assert s[i..] == [s[i]] + s[i + 1..];
    }
  }

  /** Cleaning a clean name changes nothing. */
  lemma CleanNameIdempotent(s: string)
    ensures CleanName(CleanName(s)) == CleanName(s)
  {
    var t := CleanName(s);
    RemoveBracketsIsFilter(t);
    Seqs.FilterIdentity(t, NotBracket);
    CollapseWithoutWhitespace(t);
  }

  /** For example, the one-hot column `a < b` becomes `a_b`: the bracket goes
      first, then the two spaces left around it become one underscore. */
  lemma CleanNameExample()
    ensures CleanName("a < b") == "a_b"
  {
    RemoveBracketsExample();
    CollapseExample();
  }

  lemma RemoveBracketsExample()
    ensures RemoveBrackets("a < b") == "a  b"
  {
    assert "b"[1..] == "";
    assert RemoveBrackets("b") == "b";
    assert " b"[1..] == "b";
    assert RemoveBrackets(" b") == " b";
    assert "< b"[1..] == " b";
    assert RemoveBrackets("< b") == " b";
    assert " < b"[1..] == "< b";
    assert RemoveBrackets(" < b") == "  b";
    assert "a < b"[1..] == " < b";
  }

  lemma CollapseExample()
    ensures CollapseWhitespace("a  b") == "a_b"
  {
    var s := "a  b";
    assert CollapseFrom(s, 3) == "b";
    assert SkipRun(s, 2) == 3;
    assert CollapseFrom(s, 1) == "_b";
  }

  // --------------------------------- a definition by character position

  /** What the substitution leaves of character `i`: itself if it is not
      whitespace, an underscore if it starts a run, nothing if it continues one. */
  function Piece(s: string, i: nat): string
    requires i < |s|
  {
    if !IsPyWhitespace(s[i]) then [s[i]]
    else if i == 0 || !IsPyWhitespace(s[i - 1]) then "_"
    else ""
  }

  /** The pieces of characters `i` up to the end, in order. */
  function Pieces(s: string, i: nat): string
    requires i <= |s|
    decreases |s| - i
  {
    if i == |s| then "" else Piece(s, i) + Pieces(s, i + 1)
  }

  /** The substitution is the character-wise definition: the output is the
      concatenation of the pieces. */
  lemma CollapseIsPieces(s: string)
    ensures CollapseWhitespace(s) == Pieces(s, 0)
  {
    CollapseSuffix(s, 0);
  }

  /** From a position not inside a run, the pieces from there on are the
      substitution applied from there on. */
  lemma {:induction false} CollapseSuffix(s: string, i: nat)
    requires i <= |s|
    requires i == 0 || i == |s| || !IsPyWhitespace(s[i - 1])
    ensures Pieces(s, i) == CollapseFrom(s, i)
    decreases |s| - i, 1
  {
    if i < |s| {
      if IsPyWhitespace(s[i]) {
        InsideRun(s, i + 1);
      } else {
        CollapseSuffix(s, i + 1);
      }
    }
  }

  /** Inside a run, the pieces from there on are the substitution applied
      from the end of the run. */
  lemma {:induction false} InsideRun(s: string, i: nat)
    requires 0 < i <= |s| && IsPyWhitespace(s[i - 1])
    ensures Pieces(s, i) == CollapseFrom(s, SkipRun(s, i))
    decreases |s| - i, 0
  {
    if i < |s| {
      if IsPyWhitespace(s[i]) {
        InsideRun(s, i + 1);
      } else {
        CollapseSuffix(s, i + 1);
      }
    }
  }
}
