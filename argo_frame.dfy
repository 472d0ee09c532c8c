/** The data and the specification functions shared by the two versions of
    the Argo mixed-layer-depth feature pipeline (LSTM.py and LSTM-2.py):
    frames as rows of named cells, the adjusted-or-raw column choice, the QC
    flag filter, numeric conversion, the temperature-threshold MLD search per
    profile, the grouping by profile, and the NaN-row filter of the feature
    matrix. */
module ArgoFrame {
  import opened Wrappers
  import Seqs

  // ------------------------------------------------------------ frames

  /** A cell of a pandas frame: missing (NaN or None), an integer, a float or text. */
  datatype Cell = Missing | Int(i: int) | Real(r: real) | Text(s: string)

  /** A frame: its column names in order and its rows, each a map from
      column name to value. */
  datatype Table<T> = Table(columns: seq<string>, rows: seq<map<string, T>>)

  type Frame = Table<Cell>

  /** The exceptions the modelled code raises. */
  datatype PyError = ValueError(message: string) | KeyError(key: string)

  function Get(row: map<string, Cell>, column: string): Cell
  {
    if column in row then row[column] else Missing
  }

  /** `out[name] = values`: overwrite the column if it exists, else append it. */
  function AddColumn(t: Frame, name: string, values: seq<Cell>): (r: Frame)
    requires |values| == |t.rows|
    ensures name in r.columns && |r.rows| == |t.rows|
    ensures forall c :: c in t.columns ==> c in r.columns
    ensures forall c :: c in r.columns ==> c in t.columns || c == name
    ensures forall i :: 0 <= i < |r.rows| ==> r.rows[i] == t.rows[i][name := values[i]]
  {
    Table(if name in t.columns then t.columns else t.columns + [name],
          seq(|t.rows|, i requires 0 <= i < |t.rows| => t.rows[i][name := values[i]]))
  }

  /** Python's `str(list_of_str)`, e.g. `['pres/pres_adjusted', 'psal/psal_adjusted']`. */
  function PyListRepr(items: seq<string>): string
  {
    "[" + JoinQuoted(items) + "]"
  }

  function JoinQuoted(items: seq<string>): string
  {
    if items == [] then ""
    else if |items| == 1 then "'" + items[0] + "'"
    else "'" + items[0] + "', " + JoinQuoted(items[1..])
  }

  // ------------------------------------------------------- column choice

  /** `v_adjusted` if the frame has it, else `v` if it has that, else none. */
  function ChooseColumn(columns: seq<string>, v: string): (r: Option<string>)
    ensures r.Some? ==> r.value in columns && (r.value == v + "_adjusted" || r.value == v)
    ensures v + "_adjusted" in columns ==> r == Some(v + "_adjusted")
    ensures r.None? <==> v + "_adjusted" !in columns && v !in columns
  {
    if v + "_adjusted" in columns then Some(v + "_adjusted")
    else if v in columns then Some(v)
    else None
  }

  const PresLabel := "pres/pres_adjusted"
  const TempLabel := "temp/temp_adjusted"
  const PsalLabel := "psal/psal_adjusted"

  /** The columns chosen for pressure, temperature and salinity. */
  datatype Chosen = Chosen(pres: string, temp: string, psal: string)

  function ChooseAll(columns: seq<string>): Option<Chosen>
  {
    match (ChooseColumn(columns, "pres"), ChooseColumn(columns, "temp"), ChooseColumn(columns, "psal"))
    case (Some(p), Some(t), Some(s)) => Some(Chosen(p, t, s))
    case _ => None
  }

  // --------------------------------------------------------- QC filter

  /** `str(flag) in ["1", "2"]`. An integer prints as its digits; a float
      always prints with a point, an exponent, `inf` or `nan`, and a missing
      value as `nan` or `None`, so neither is ever accepted. */
  predicate FlagAccepted(c: Cell)
  {
    match c
    case Text(s) => s == "1" || s == "2"
    case Int(i) => i == 1 || i == 2
    case Real(_) => false
    case Missing => false
  }

  /** `qc_mask(col)` for one row: true when the flag column is absent. */
  predicate QcPasses(columns: seq<string>, row: map<string, Cell>, flagColumn: string)
  {
    flagColumn !in columns || FlagAccepted(Get(row, flagColumn))
  }

  /** The conjunction of the three masks. */
  predicate RowPassesQc(columns: seq<string>, chosen: Chosen, row: map<string, Cell>)
  {
    QcPasses(columns, row, chosen.pres + "_qc")
    && QcPasses(columns, row, chosen.temp + "_qc")
    && QcPasses(columns, row, chosen.psal + "_qc")
  }

  /** `out.loc[mask]`: the rows that pass QC, in their original order. */
  function QcFilter(t: Frame, chosen: Chosen): (r: Frame)
    ensures r.columns == t.columns && Seqs.IsSubseq(r.rows, t.rows)
    ensures forall i :: 0 <= i < |r.rows| ==> RowPassesQc(t.columns, chosen, r.rows[i])
    ensures forall row :: row in t.rows && RowPassesQc(t.columns, chosen, row) ==> row in r.rows
    ensures forall row :: multiset(r.rows)[row] == if RowPassesQc(t.columns, chosen, row) then multiset(t.rows)[row] else 0
  {
    Seqs.FilterCounts(t.rows, (row: map<string, Cell>) => RowPassesQc(t.columns, chosen, row));
    Table(t.columns, Seqs.Filter(t.rows, (row: map<string, Cell>) => RowPassesQc(t.columns, chosen, row)))
  }

  /** Without any of the three flag columns nothing is filtered. */
  lemma QcWithoutFlagsKeepsAll(t: Frame, chosen: Chosen)
    requires chosen.pres + "_qc" !in t.columns && chosen.temp + "_qc" !in t.columns
             && chosen.psal + "_qc" !in t.columns
    ensures QcFilter(t, chosen) == t
  {
    Seqs.FilterIdentity(t.rows, (row: map<string, Cell>) => RowPassesQc(t.columns, chosen, row));
  }

  // ------------------------------------------------ numeric conversion

  predicate IsDigit(c: char) { '0' <= c <= '9' }

  predicate AllDigits(s: string) { forall i :: 0 <= i < |s| ==> IsDigit(s[i]) }

  function NatOfDigits(s: string): nat
    requires AllDigits(s)
  {
    if s == [] then 0 else 10 * NatOfDigits(s[..|s| - 1]) + (s[|s| - 1] as int - '0' as int)
  }

  function Pow10(k: nat): (r: nat)
    ensures r >= 1
  {
    if k == 0 then 1 else 10 * Pow10(k - 1)
  }

  /** The index of the first `.` at or after `i`, or `|s|` if there is none. */
  function PointFrom(s: string, i: nat): (k: nat)
    requires i <= |s|
    ensures i <= k <= |s| && (k < |s| ==> s[k] == '.')
    ensures forall j :: i <= j < k ==> s[j] != '.'
    decreases |s| - i
  {
    if i == |s| || s[i] == '.' then i else PointFrom(s, i + 1)
  }

  /** The value of `digits` or `digits.digits`. */
  function ParseUnsigned(s: string): Option<real>
  {
    if s != [] && AllDigits(s) then Some(NatOfDigits(s) as real)
    else
      var k := PointFrom(s, 0);
      if 0 < k < |s| - 1 && AllDigits(s[..k]) && AllDigits(s[k + 1..]) then
        Some(NatOfDigits(s[..k]) as real + NatOfDigits(s[k + 1..]) as real / Pow10(|s| - k - 1) as real)
      else None
  }

  /** A decimal literal with an optional sign, as `float(s)` reads it. */
  function ParseDecimal(s: string): (r: Option<real>)
    ensures s == "" ==> r.None?
  {
    if s != [] && s[0] == '-' then
      match ParseUnsigned(s[1..]) case Some(v) => Some(-v) case None => None
    else if s != [] && s[0] == '+' then ParseUnsigned(s[1..])
    else ParseUnsigned(s)
  }

  /** A string of digits denotes the number they spell. */
  lemma ParseDigits(s: string)
    requires s != [] && AllDigits(s)
    ensures ParseDecimal(s) == Some(NatOfDigits(s) as real)
  {
    assert IsDigit(s[0]);
  }

  /** `digits.digits` denotes the whole part plus the fraction. */
  lemma ParsePointDigits(a: string, b: string)
    requires a != [] && b != [] && AllDigits(a) && AllDigits(b)
    ensures ParseDecimal(a + "." + b)
            == Some(NatOfDigits(a) as real + NatOfDigits(b) as real / Pow10(|b|) as real)
  {
    var s := a + "." + b;
    PointAfterWhole(a, b, s);
    UnsignedPointValue(a, b, s);
    UnsignedWithoutSign(a, b, s);
  }

  lemma PointAfterWhole(a: string, b: string, s: string)
    requires a != [] && b != [] && AllDigits(a) && AllDigits(b) && s == a + "." + b
    ensures PointFrom(s, 0) == |a|
  {
    assert s[|a|] == '.';
    assert forall j :: 0 <= j < |a| ==> s[j] == a[j];
  }

  lemma UnsignedPointValue(a: string, b: string, s: string)
    requires a != [] && b != [] && AllDigits(a) && AllDigits(b) && s == a + "." + b
    requires PointFrom(s, 0) == |a|
    ensures ParseUnsigned(s) == Some(NatOfDigits(a) as real + NatOfDigits(b) as real / Pow10(|b|) as real)
  {
    assert s[|a|] == '.' && s[..|a|] == a && s[|a| + 1..] == b;
  }

  lemma UnsignedWithoutSign(a: string, b: string, s: string)
    requires a != [] && AllDigits(a) && s == a + "." + b
    ensures ParseDecimal(s) == ParseUnsigned(s)
  {
    assert s[0] == a[0];
  }

  /** A leading `-` negates the number and a leading `+` changes nothing. */
  lemma ParseSigned(t: string)
    requires t != [] && IsDigit(t[0])
    ensures ParseDecimal("-" + t) == (match ParseDecimal(t) case Some(v) => Some(-v) case None => None)
    ensures ParseDecimal("+" + t) == ParseDecimal(t)
  {
    assert ("-" + t)[1..] == t && ("+" + t)[1..] == t;
  }

  /** A string holding a character that is neither a digit, a point nor a
      sign is not a number, so the conversion gives NaN. */
  lemma ParseRejectsOther(s: string, j: nat)
    requires j < |s| && !IsDigit(s[j]) && s[j] != '.' && s[j] != '-' && s[j] != '+'
    ensures ParseDecimal(s) == None
  {
    RejectsOtherUnsigned(s, j);
    if s[0] == '-' || s[0] == '+' {
      assert s[1..][j - 1] == s[j];
      RejectsOtherUnsigned(s[1..], j - 1);
    }
  }

  lemma RejectsOtherUnsigned(s: string, j: nat)
    requires j < |s| && !IsDigit(s[j]) && s[j] != '.'
    ensures ParseUnsigned(s) == None
  {
    var k := PointFrom(s, 0);
    if 0 < k < |s| - 1 {
      if j < k {
        assert s[..k][j] == s[j];
      } else {
        assert s[k + 1..][j - k - 1] == s[j];
      }
    }
  }

  // ---------------------------------------- mixed layer depth per profile

  /** One measurement level of a profile. */
  datatype Level = Level(profileId: int, depth: real, temperature: real)

  function Abs(x: real): real { if x < 0.0 then -x else x }

  /** `np.argmin(np.abs(depth - ref_depth))`: the first index of least distance
      to the reference depth. */
  function NearestIndex(ls: seq<Level>, refDepth: real): (k: nat)
    requires |ls| > 0
    ensures k < |ls|
    ensures forall j :: 0 <= j < |ls| ==> Abs(ls[k].depth - refDepth) <= Abs(ls[j].depth - refDepth)
    ensures forall j :: 0 <= j < k ==> Abs(ls[j].depth - refDepth) > Abs(ls[k].depth - refDepth)
    decreases |ls|
  {
    if |ls| == 1 then 0
    else
      var k := NearestIndex(ls[..|ls| - 1], refDepth);
      if Abs(ls[|ls| - 1].depth - refDepth) < Abs(ls[k].depth - refDepth) then |ls| - 1 else k
  }

  predicate Exceeds(l: Level, tRef: real, threshold: real)
  {
    Abs(l.temperature - tRef) > threshold
  }

  /** `np.where(diff > threshold)[0]`, first element if any, looking from index `i` on. */
  function FirstExceedance(ls: seq<Level>, tRef: real, threshold: real, i: nat): (r: Option<nat>)
    requires i <= |ls|
    ensures r.Some? ==> i <= r.value < |ls| && Exceeds(ls[r.value], tRef, threshold)
                        && forall j :: i <= j < r.value ==> !Exceeds(ls[j], tRef, threshold)
    ensures r.None? ==> forall j :: i <= j < |ls| ==> !Exceeds(ls[j], tRef, threshold)
    decreases |ls| - i
  {
    if i == |ls| then None
    else if Exceeds(ls[i], tRef, threshold) then Some(i)
    else FirstExceedance(ls, tRef, threshold, i + 1)
  }

  /** The temperature at the level nearest the reference depth. */
  function ReferenceTemperature(ls: seq<Level>, refDepth: real): real
    requires |ls| > 0
  {
    ls[NearestIndex(ls, refDepth)].temperature
  }

  /** The level whose depth is the MLD: the first that differs from the
      reference temperature by more than the threshold, else the last. */
  function MldIndex(ls: seq<Level>, threshold: real, refDepth: real): (k: nat)
    requires |ls| > 0
    ensures k < |ls|
    ensures forall j :: 0 <= j < k ==> !Exceeds(ls[j], ReferenceTemperature(ls, refDepth), threshold)
    ensures Exceeds(ls[k], ReferenceTemperature(ls, refDepth), threshold)
            || (k == |ls| - 1 && forall j :: 0 <= j < |ls| ==> !Exceeds(ls[j], ReferenceTemperature(ls, refDepth), threshold))
  {
    match FirstExceedance(ls, ReferenceTemperature(ls, refDepth), threshold, 0)
    case Some(k) => k
    case None => |ls| - 1
  }

  /** The MLD of one profile whose levels are already sorted by depth. */
  function ProfileMld(ls: seq<Level>, threshold: real, refDepth: real): real
    requires |ls| > 0
  {
    ls[MldIndex(ls, threshold, refDepth)].depth
  }

  predicate SortedByDepth(ls: seq<Level>)
  {
    forall i, j :: 0 <= i < j < |ls| ==> ls[i].depth <= ls[j].depth
  }

  /** On a profile sorted by depth, the MLD is the depth of one of its levels,
      every level above it is within the threshold of the reference
      temperature, and when no level exceeds the threshold it is the deepest
      depth. */
  lemma MldOfSortedProfile(ls: seq<Level>, threshold: real, refDepth: real)
    requires |ls| > 0 && SortedByDepth(ls)
    ensures var mld := ProfileMld(ls, threshold, refDepth);
            var tRef := ReferenceTemperature(ls, refDepth);
            (exists k :: 0 <= k < |ls| && ls[k].depth == mld)
            && (forall j :: 0 <= j < |ls| && ls[j].depth < mld ==> !Exceeds(ls[j], tRef, threshold))
            && ((forall j :: 0 <= j < |ls| ==> !Exceeds(ls[j], tRef, threshold)) ==>
                  forall j :: 0 <= j < |ls| ==> ls[j].depth <= mld)
  {
    var k := MldIndex(ls, threshold, refDepth);
    var tRef := ReferenceTemperature(ls, refDepth);
    if forall j :: 0 <= j < |ls| ==> !Exceeds(ls[j], tRef, threshold) {
      assert k == |ls| - 1;
    }
  }

  // ------------------------------------------- sorting and grouping

  /** Inserts before the first level that is not shallower, so levels of
      equal depth keep their order. */
  function InsertByDepth(l: Level, sorted: seq<Level>): (r: seq<Level>)
    ensures |r| == |sorted| + 1 && multiset(r) == multiset(sorted) + multiset{l}
    ensures forall x :: x in r ==> x == l || x in sorted
  {
    if sorted == [] || l.depth <= sorted[0].depth then [l] + sorted
    else
      assert sorted == [sorted[0]] + sorted[1..];
      [sorted[0]] + InsertByDepth(l, sorted[1..])
  }

  lemma {:induction false} InsertKeepsSorted(l: Level, sorted: seq<Level>)
    requires SortedByDepth(sorted)
    ensures SortedByDepth(InsertByDepth(l, sorted))
  {
    if sorted != [] && l.depth > sorted[0].depth {
      var rest := InsertByDepth(l, sorted[1..]);
      InsertKeepsSorted(l, sorted[1..]);
      forall x | x in rest ensures sorted[0].depth <= x.depth {
        if x != l {
          var j :| 0 <= j < |sorted[1..]| && sorted[1..][j] == x;
          assert sorted[j + 1] == x;
        }
      }
      var r := [sorted[0]] + rest;
      forall i, j | 0 <= i < j < |r| ensures r[i].depth <= r[j].depth {
        if i == 0 { assert r[j] == rest[j - 1] && rest[j - 1] in rest; }
        else { assert r[i] == rest[i - 1] && r[j] == rest[j - 1]; }
      }
    }
  }

  /** `grp.sort_values("depth")`, as a stable insertion sort. */
  function SortByDepth(ls: seq<Level>): (r: seq<Level>)
    ensures SortedByDepth(r) && multiset(r) == multiset(ls) && |r| == |ls|
  {
    if ls == [] then []
    else
      assert ls == [ls[0]] + ls[1..];
      InsertKeepsSorted(ls[0], SortByDepth(ls[1..]));
      InsertByDepth(ls[0], SortByDepth(ls[1..]))
  }

  predicate StrictlyIncreasing(s: seq<int>)
  {
    forall i, j :: 0 <= i < j < |s| ==> s[i] < s[j]
  }

  /** Adds `x` to a strictly increasing list unless it is already there. */
  function InsertId(x: int, ids: seq<int>): (r: seq<int>)
    requires StrictlyIncreasing(ids)
    ensures StrictlyIncreasing(r)
    ensures forall y :: y in r <==> y == x || y in ids
  {
    if ids == [] || x < ids[0] then
      PrependIncreasing(x, ids);
      [x] + ids
    else if x == ids[0] then ids
    else
      TailIncreasing(ids);
      var rest := InsertId(x, ids[1..]);
      assert rest[0] in rest;
      PrependIncreasing(ids[0], rest);
      [ids[0]] + rest
  }

  /** A value below the head of a strictly increasing list can go in front. */
  lemma PrependIncreasing(x: int, ids: seq<int>)
    requires StrictlyIncreasing(ids) && (ids != [] ==> x < ids[0])
    ensures StrictlyIncreasing([x] + ids)
    ensures forall y :: y in [x] + ids <==> y == x || y in ids
  {
    assert forall i :: 0 < i < |ids| + 1 ==> ([x] + ids)[i] == ids[i - 1];
  }

  /** The tail of a strictly increasing list is strictly increasing and lies
      above its head. */
  lemma TailIncreasing(ids: seq<int>)
    requires StrictlyIncreasing(ids) && ids != []
    ensures StrictlyIncreasing(ids[1..])
    ensures forall y :: y in ids[1..] ==> ids[0] < y
  {
    forall y | y in ids[1..] ensures ids[0] < y {
      var j :| 0 <= j < |ids[1..]| && ids[1..][j] == y;
      assert ids[j + 1] == y;
    }
  }

  predicate HasProfile(ls: seq<Level>, pid: int)
  {
    exists i :: 0 <= i < |ls| && ls[i].profileId == pid
  }

  /** The keys of `df.groupby("profile_id")`, in ascending order. */
  function ProfileIds(ls: seq<Level>): (r: seq<int>)
    ensures StrictlyIncreasing(r)
    ensures forall pid :: pid in r <==> HasProfile(ls, pid)
  {
    if ls == [] then []
    else
      var rest := ProfileIds(ls[1..]);
      assert forall pid :: HasProfile(ls, pid) <==> pid == ls[0].profileId || HasProfile(ls[1..], pid) by {
        forall pid ensures HasProfile(ls, pid) <==> pid == ls[0].profileId || HasProfile(ls[1..], pid) {
          if HasProfile(ls, pid) && pid != ls[0].profileId {
            var i :| 0 <= i < |ls| && ls[i].profileId == pid;
            assert ls[1..][i - 1].profileId == pid;
          }
          if HasProfile(ls[1..], pid) {
            var i :| 0 <= i < |ls[1..]| && ls[1..][i].profileId == pid;
            assert ls[i + 1].profileId == pid;
          }
        }
      }
      InsertId(ls[0].profileId, rest)
  }

  /** The rows of one profile, in their original order. */
  function Group(ls: seq<Level>, pid: int): (r: seq<Level>)
    ensures forall l :: l in r <==> l in ls && l.profileId == pid
  {
    Seqs.Filter(ls, (l: Level) => l.profileId == pid)
  }

  /** A profile keeps each of its levels as often as the frame holds it. */
  lemma GroupCounts(ls: seq<Level>, pid: int)
    ensures forall l :: multiset(Group(ls, pid))[l] == if l.profileId == pid then multiset(ls)[l] else 0
  {
    Seqs.FilterCounts(ls, (l: Level) => l.profileId == pid);
  }

  /** `[mld] * len(g)` for the profile `pid` (nothing for an empty group). */
  function MldBlock(ls: seq<Level>, pid: int, threshold: real, refDepth: real): (r: seq<real>)
    ensures |r| == |Group(ls, pid)|
    ensures forall i :: 0 <= i < |r| ==>
              |SortByDepth(Group(ls, pid))| > 0 && r[i] == ProfileMld(SortByDepth(Group(ls, pid)), threshold, refDepth)
  {
    var g := SortByDepth(Group(ls, pid));
    if |g| == 0 then [] else Seqs.Repeat(ProfileMld(g, threshold, refDepth), |g|)
  }

  /** `mld_vals` after the groups `pids` have been visited in order. */
  function GroupedMld(ls: seq<Level>, pids: seq<int>, threshold: real, refDepth: real): seq<real>
    decreases |pids|
  {
    if pids == [] then []
    else GroupedMld(ls, pids[..|pids| - 1], threshold, refDepth) + MldBlock(ls, pids[|pids| - 1], threshold, refDepth)
  }

  /** Visiting one more group appends that group's MLD once per level of it. */
  lemma GroupedMldSnoc(ls: seq<Level>, pids: seq<int>, n: nat, threshold: real, refDepth: real)
    requires n < |pids|
    ensures var g := SortByDepth(Group(ls, pids[n]));
            GroupedMld(ls, pids[..n + 1], threshold, refDepth)
            == GroupedMld(ls, pids[..n], threshold, refDepth)
               + (if |g| == 0 then [] else Seqs.Repeat(ProfileMld(g, threshold, refDepth), |g|))
  {
    assert pids[..n + 1][..n] == pids[..n];
  }

  /** The MLD of the profile row `i` belongs to: the value each row should get. */
  function RowMld(ls: seq<Level>, i: nat, threshold: real, refDepth: real): real
    requires i < |ls|
  {
    var g := SortByDepth(Group(ls, ls[i].profileId));
    assert ls[i] in multiset(g);
    ProfileMld(g, threshold, refDepth)
  }

  // ------------------------------------------- length of the MLD list

  /** The total size of the groups `pids`. */
  function GroupSizes(ls: seq<Level>, pids: seq<int>): nat
    decreases |pids|
  {
    if pids == [] then 0 else GroupSizes(ls, pids[..|pids| - 1]) + |Group(ls, pids[|pids| - 1])|
  }

  /** How often `v` occurs in `pids`. */
  function Occurrences(pids: seq<int>, v: int): nat
    decreases |pids|
  {
    if pids == [] then 0
    else Occurrences(pids[..|pids| - 1], v) + (if pids[|pids| - 1] == v then 1 else 0)
  }

  lemma {:induction false} GroupedMldLength(ls: seq<Level>, pids: seq<int>, threshold: real, refDepth: real)
    ensures |GroupedMld(ls, pids, threshold, refDepth)| == GroupSizes(ls, pids)
    decreases |pids|
  {
    if pids != [] {
      GroupedMldLength(ls, pids[..|pids| - 1], threshold, refDepth);
    }
  }

  lemma {:induction false} GroupSizesOfEmpty(pids: seq<int>)
    ensures GroupSizes([], pids) == 0
    decreases |pids|
  {
    if pids != [] { GroupSizesOfEmpty(pids[..|pids| - 1]); }
  }

  /** A first row adds one to the group of its own profile. */
  lemma {:induction false} GroupSizesCons(x: Level, rest: seq<Level>, pids: seq<int>)
    ensures GroupSizes([x] + rest, pids) == GroupSizes(rest, pids) + Occurrences(pids, x.profileId)
    decreases |pids|
  {
    if pids != [] {
      GroupSizesCons(x, rest, pids[..|pids| - 1]);
      var p := pids[|pids| - 1];
      assert ([x] + rest)[0] == x && ([x] + rest)[1..] == rest;
      assert Group([x] + rest, p) == (if x.profileId == p then [x] else []) + Group(rest, p);
    }
  }

  lemma {:induction false} OccurrencesOfAbsent(pids: seq<int>, v: int)
    requires v !in pids
    ensures Occurrences(pids, v) == 0
    decreases |pids|
  {
    if pids != [] {
      assert forall y :: y in pids[..|pids| - 1] ==> y in pids;
      OccurrencesOfAbsent(pids[..|pids| - 1], v);
    }
  }

  lemma {:induction false} OccurrencesOfMember(pids: seq<int>, v: int)
    requires StrictlyIncreasing(pids) && v in pids
    ensures Occurrences(pids, v) == 1
    decreases |pids|
  {
    var init := pids[..|pids| - 1];
    if pids[|pids| - 1] == v {
      assert forall j :: 0 <= j < |init| ==> init[j] < v by {
        forall j | 0 <= j < |init| ensures init[j] < v {
          assert init[j] == pids[j];
        }
      }
      OccurrencesOfAbsent(init, v);
    } else {
      assert v in init by {
        var i :| 0 <= i < |pids| && pids[i] == v;
        assert init[i] == v;
      }
      OccurrencesOfMember(init, v);
    }
  }

  /** Groups over a duplicate-free list of keys covering every row partition the rows. */
  lemma {:induction false} GroupSizesCover(ls: seq<Level>, pids: seq<int>)
    requires StrictlyIncreasing(pids)
    requires forall i :: 0 <= i < |ls| ==> ls[i].profileId in pids
    ensures GroupSizes(ls, pids) == |ls|
    decreases |ls|
  {
    if ls == [] {
      GroupSizesOfEmpty(pids);
    } else {
      assert ls == [ls[0]] + ls[1..];
      GroupSizesCover(ls[1..], pids);
      GroupSizesCons(ls[0], ls[1..], pids);
      OccurrencesOfMember(pids, ls[0].profileId);
    }
  }

  /** `mld_vals` has exactly one entry per row, so the assignment to the frame
      never fails on length. */
  lemma GroupedMldCoversEveryRow(ls: seq<Level>, threshold: real, refDepth: real)
    ensures |GroupedMld(ls, ProfileIds(ls), threshold, refDepth)| == |ls|
  {
    var pids := ProfileIds(ls);
    forall i | 0 <= i < |ls| ensures ls[i].profileId in pids {
      assert HasProfile(ls, ls[i].profileId);
    }
    GroupSizesCover(ls, pids);
    GroupedMldLength(ls, pids, threshold, refDepth);
  }

  // ------------------------------------- which row gets which MLD

  /** The column the MLD list should become: each row gets the MLD of its own profile. */
  function MldPerRow(ls: seq<Level>, threshold: real, refDepth: real): (r: seq<real>)
    ensures |r| == |ls| && forall i :: 0 <= i < |ls| ==> r[i] == RowMld(ls, i, threshold, refDepth)
  {
    seq(|ls|, i requires 0 <= i < |ls| => RowMld(ls, i, threshold, refDepth))
  }

  /** Every row of a profile gets the same value; it is the depth of a level of
      that profile; and no level of the profile above it exceeds the threshold. */
  lemma MldPerRowOwnProfile(ls: seq<Level>, threshold: real, refDepth: real, i: nat)
    requires i < |ls|
    ensures var col := MldPerRow(ls, threshold, refDepth);
            var g := SortByDepth(Group(ls, ls[i].profileId));
            |g| > 0
            && (forall j :: 0 <= j < |ls| && ls[j].profileId == ls[i].profileId ==> col[j] == col[i])
            && (exists k :: 0 <= k < |ls| && ls[k].profileId == ls[i].profileId && ls[k].depth == col[i])
            && (forall k :: 0 <= k < |ls| && ls[k].profileId == ls[i].profileId && ls[k].depth < col[i] ==>
                  !Exceeds(ls[k], ReferenceTemperature(g, refDepth), threshold))
  {
    var grp := Group(ls, ls[i].profileId);
    var g := SortByDepth(grp);
    assert ls[i] in grp;
    assert ls[i] in multiset(g);
    MldOfSortedProfile(g, threshold, refDepth);
    var m := MldIndex(g, threshold, refDepth);
    assert g[m] in multiset(grp);
    assert g[m] in ls;
    forall k | 0 <= k < |ls| && ls[k].profileId == ls[i].profileId && ls[k].depth < ProfileMld(g, threshold, refDepth)
      ensures !Exceeds(ls[k], ReferenceTemperature(g, refDepth), threshold)
    {
      assert ls[k] in grp;
      assert ls[k] in multiset(g);
      var j :| 0 <= j < |g| && g[j] == ls[k];
    }
  }

  lemma GroupCons(x: Level, rest: seq<Level>, pid: int)
    ensures Group([x] + rest, pid) == (if x.profileId == pid then [x] else []) + Group(rest, pid)
  {
    assert ([x] + rest)[0] == x && ([x] + rest)[1..] == rest;
  }

  /** What the source assigns positionally is not that column: a frame whose
      rows are not grouped in ascending profile order gives its first row the
      MLD of another profile. */
  lemma PositionalMldMisaligned()
    ensures var ls := [Level(1, 5.0, 20.0), Level(0, 5.0, 10.0), Level(0, 20.0, 10.0)];
            |GroupedMld(ls, ProfileIds(ls), 0.5, 10.0)| == 3
            && GroupedMld(ls, ProfileIds(ls), 0.5, 10.0)[0] == 20.0
            && MldPerRow(ls, 0.5, 10.0)[0] == 5.0
  {
    var a, b, c := Level(1, 5.0, 20.0), Level(0, 5.0, 10.0), Level(0, 20.0, 10.0);
    ExampleIds(a, b, c);
    ExampleGrouped(a, b, c);
    ExampleRow(a, b, c);
  }

  lemma ExampleBlocks(a: Level, b: Level, c: Level)
    requires a == Level(1, 5.0, 20.0) && b == Level(0, 5.0, 10.0) && c == Level(0, 20.0, 10.0)
    ensures MldBlock([a, b, c], 0, 0.5, 10.0) == [20.0, 20.0]
    ensures MldBlock([a, b, c], 1, 0.5, 10.0) == [5.0]
  {
    ExampleGroups(a, b, c);
    ExampleMlds(a, b, c);
  }

  lemma ExampleGrouped(a: Level, b: Level, c: Level)
    requires a == Level(1, 5.0, 20.0) && b == Level(0, 5.0, 10.0) && c == Level(0, 20.0, 10.0)
    ensures GroupedMld([a, b, c], [0, 1], 0.5, 10.0) == [20.0, 20.0, 5.0]
  {
    ExampleBlocks(a, b, c);
    var ls := [a, b, c];
    assert [0, 1][..1] == [0] && [0][..0] == [];
    assert GroupedMld(ls, [0], 0.5, 10.0) == [20.0, 20.0];
  }

  lemma ExampleRow(a: Level, b: Level, c: Level)
    requires a == Level(1, 5.0, 20.0) && b == Level(0, 5.0, 10.0) && c == Level(0, 20.0, 10.0)
    ensures MldPerRow([a, b, c], 0.5, 10.0)[0] == 5.0
  {
    ExampleGroups(a, b, c);
    ExampleMlds(a, b, c);
    assert RowMld([a, b, c], 0, 0.5, 10.0) == 5.0;
  }

  lemma ExampleIds(a: Level, b: Level, c: Level)
    requires a == Level(1, 5.0, 20.0) && b == Level(0, 5.0, 10.0) && c == Level(0, 20.0, 10.0)
    ensures ProfileIds([a, b, c]) == [0, 1]
  {
    assert [a, b, c][1..] == [b, c] && [b, c][1..] == [c];
    assert ProfileIds([c]) == InsertId(0, ProfileIds([])) == [0];
    assert ProfileIds([b, c]) == InsertId(0, [0]) == [0];
    assert InsertId(1, [0]) == [0] + InsertId(1, []) == [0, 1];
  }

  lemma ExampleGroups(a: Level, b: Level, c: Level)
    requires a == Level(1, 5.0, 20.0) && b == Level(0, 5.0, 10.0) && c == Level(0, 20.0, 10.0)
    ensures Group([a, b, c], 0) == [b, c] && Group([a, b, c], 1) == [a]
  {
    assert [a] + [b, c] == [a, b, c] && [b] + [c] == [b, c] && [c] + [] == [c];
    GroupCons(c, [], 0);
    GroupCons(b, [c], 0);
    GroupCons(a, [b, c], 0);
    GroupCons(c, [], 1);
    GroupCons(b, [c], 1);
    GroupCons(a, [b, c], 1);
  }

  lemma ExampleMlds(a: Level, b: Level, c: Level)
    requires a == Level(1, 5.0, 20.0) && b == Level(0, 5.0, 10.0) && c == Level(0, 20.0, 10.0)
    ensures SortByDepth([b, c]) == [b, c] && SortByDepth([a]) == [a]
    ensures ProfileMld([b, c], 0.5, 10.0) == 20.0 && ProfileMld([a], 0.5, 10.0) == 5.0
  {
    assert [b, c][1..] == [c];
    assert SortByDepth([c]) == [c];
    assert NearestIndex([b, c], 10.0) == 0;
    assert FirstExceedance([b, c], 10.0, 0.5, 0) == None;
  }

  // ------------------------------------------------ feature matrix

  /** A float cell: `None` is NaN. */
  type Num = Option<real>

  const FeatureColumns := ["temperature", "salinity", "latitude", "longitude", "month", "day_of_year", "depth"]

  const MldColumn := "mixed_layer_depth"

  /** `[c for c in feature_cols if c in df.columns]`. */
  function UsedFeatures(columns: seq<string>): (r: seq<string>)
    ensures Seqs.IsSubseq(r, FeatureColumns)
    ensures forall c :: c in r ==> c in FeatureColumns && c in columns
    ensures forall c :: c in FeatureColumns && c in columns ==> c in r
  {
    Seqs.Filter(FeatureColumns, (c: string) => c in columns)
  }

  /** One row of X with its y. */
  datatype Sample = Sample(x: seq<Num>, y: Num)

  /** The row survives `~(isnan(X).any(axis=1) | isnan(y).any(axis=1))`. */
  predicate IsClean(s: Sample)
  {
    s.y.Some? && forall i :: 0 <= i < |s.x| ==> s.x[i].Some?
  }

  function NumAt(row: map<string, Num>, column: string): Num
  {
    if column in row then row[column] else None
  }

  /** `df[used].to_numpy()` next to `df["mixed_layer_depth"]`, row by row. */
  function Samples(t: Table<Num>, used: seq<string>): (r: seq<Sample>)
    ensures |r| == |t.rows|
    ensures forall i :: 0 <= i < |r| ==>
              |r[i].x| == |used| && r[i].y == NumAt(t.rows[i], MldColumn)
              && (forall k :: 0 <= k < |used| ==> r[i].x[k] == NumAt(t.rows[i], used[k]))
  {
    seq(|t.rows|, i requires 0 <= i < |t.rows| =>
      Sample(seq(|used|, k requires 0 <= k < |used| => NumAt(t.rows[i], used[k])), NumAt(t.rows[i], MldColumn)))
  }

  function Zip(xs: seq<seq<Num>>, ys: seq<Num>): (r: seq<Sample>)
    requires |xs| == |ys|
    ensures |r| == |xs| && forall i :: 0 <= i < |r| ==> r[i] == Sample(xs[i], ys[i])
  {
    seq(|xs|, i requires 0 <= i < |xs| => Sample(xs[i], ys[i]))
  }

  /** `X, y = X[mask], y[mask]`: the same mask on both, so X and y stay the
      same length and row k of X still belongs with entry k of y. */
  function DropNanRows(samples: seq<Sample>): (r: (seq<seq<Num>>, seq<Num>))
    ensures |r.0| == |r.1|
    ensures forall k :: 0 <= k < |r.0| ==> IsClean(Sample(r.0[k], r.1[k]))
    ensures Seqs.IsSubseq(Zip(r.0, r.1), samples)
    ensures forall s :: s in samples && IsClean(s) ==> s in Zip(r.0, r.1)
    ensures forall s :: multiset(Zip(r.0, r.1))[s] == if IsClean(s) then multiset(samples)[s] else 0
  {
    var kept := Seqs.Filter(samples, IsClean);
    Seqs.FilterCounts(samples, IsClean);
    var xs := seq(|kept|, k requires 0 <= k < |kept| => kept[k].x);
    var ys := seq(|kept|, k requires 0 <= k < |kept| => kept[k].y);
    assert Zip(xs, ys) == kept;
    (xs, ys)
  }

  /** Lines shared by both versions of `prepare_features` once the frame is
      numeric: pick the feature columns present, raise `emptyMessage` if there
      are none, look up `mixed_layer_depth` (a `KeyError` without it), and drop
      every row with a NaN in X or y. */
  function FeatureMatrix(t: Table<Num>, emptyMessage: string): (r: Result<(seq<seq<Num>>, seq<Num>), PyError>)
    ensures UsedFeatures(t.columns) == [] ==> r == Failure(ValueError(emptyMessage))
    ensures UsedFeatures(t.columns) != [] && MldColumn !in t.columns ==> r == Failure(KeyError(MldColumn))
    ensures r.Success? <==> UsedFeatures(t.columns) != [] && MldColumn in t.columns
    ensures r.Success? ==>
              var (xs, ys) := r.value;
              |xs| == |ys| <= |t.rows|
              && (forall k :: 0 <= k < |xs| ==> |xs[k]| == |UsedFeatures(t.columns)| && IsClean(Sample(xs[k], ys[k])))
              && (forall s :: s in Samples(t, UsedFeatures(t.columns)) && IsClean(s) ==> s in Zip(xs, ys))
              && Seqs.IsSubseq(Zip(xs, ys), Samples(t, UsedFeatures(t.columns)))
              && (forall s :: multiset(Zip(xs, ys))[s] ==
                               if IsClean(s) then multiset(Samples(t, UsedFeatures(t.columns)))[s] else 0)
  {
    var used := UsedFeatures(t.columns);
    if used == [] then Failure(ValueError(emptyMessage))
    else if MldColumn !in t.columns then Failure(KeyError(MldColumn))
    else
      var samples := Samples(t, used);
      var (xs, ys) := DropNanRows(samples);
      Seqs.SubseqLength(Zip(xs, ys), samples);
      Success((xs, ys))
  }

  /** Once a frame has all seven feature columns, every one of them is used,
      in the order of the feature list. */
  lemma AllFeaturesUsed(columns: seq<string>)
    requires forall c :: c in FeatureColumns ==> c in columns
    ensures UsedFeatures(columns) == FeatureColumns
  {
    Seqs.FilterIdentity(FeatureColumns, (c: string) => c in columns);
  }
}
