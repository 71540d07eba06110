/** The text the iteration's reports are keyed by: the zero-padded
    iteration tag of the output file names, the row add_dual appends to the
    dual-cost table and the order that table is sorted in, and the column
    headers of the batch summary. */
module Reporting {
  import opened Common

  // ---------------------------------------------------------------- decimal text

  /** The value of a string of decimal digits. */
  function DigitsValue(s: string): nat
    decreases |s|
  {
    if s == [] then 0
    else DigitsValue(s[..|s| - 1]) * 10 + DigitOf(s[|s| - 1])
  }

  function DigitOf(c: char): nat
  {
    if '0' <= c <= '9' then (c as int) - ('0' as int) else 0
  }

  lemma DigitCharValue(d: nat)
    requires d < 10
    ensures DigitOf(DigitChar(d)) == d
  {
    var ds := ['0', '1', '2', '3', '4', '5', '6', '7', '8', '9'];
    assert DigitChar(d) == ds[d];
  }

  /** Reading the decimal text of n gives n back. */
  lemma {:induction false} NatToStringValue(n: nat)
    ensures DigitsValue(NatToString(n)) == n
    decreases n
  {
    if n < 10 {
      DigitCharValue(n);
      assert NatToString(n)[..0] == [];
    } else {
      var s := NatToString(n);
      NatToStringValue(n / 10);
      DigitCharValue(n % 10);
      assert s[..|s| - 1] == NatToString(n / 10);
    }
  }

  /** Decimal text is injective. */
  lemma NatToStringInjective(a: nat, b: nat)
    requires NatToString(a) == NatToString(b)
    ensures a == b
  {
    NatToStringValue(a);
    NatToStringValue(b);
  }

  lemma IntToStringSign(a: int)
    ensures IntToString(a)[0] == '-' <==> a < 0
  {
    if a >= 0 {
      assert '0' <= NatToString(a)[0] <= '9';
    }
  }

  /** str(p) is injective on all ints: only negative values start with '-'. */
  lemma IntToStringInjective(a: int, b: int)
    requires IntToString(a) == IntToString(b)
    ensures a == b
  {
    IntToStringSign(a);
    IntToStringSign(b);
    if a < 0 {
      assert NatToString(-a) == IntToString(a)[1..];
      assert NatToString(-b) == IntToString(b)[1..];
      NatToStringInjective(-a, -b);
    } else {
      NatToStringInjective(a, b);
    }
  }

  /** A smaller number has no more digits. */
  lemma {:induction false} NatToStringLengthMonotone(a: nat, b: nat)
    requires a <= b
    ensures |NatToString(a)| <= |NatToString(b)|
    decreases b
  {
    if a >= 10 {
      NatToStringLengthMonotone(a / 10, b / 10);
    }
  }

  function Zeros(k: nat): (r: string)
    ensures |r| == k && forall i :: 0 <= i < k ==> r[i] == '0'
  {
    seq(k, i => '0')
  }

  /** Leading zeros do not change the value. */
  lemma {:induction false} LeadingZerosValue(k: nat, s: string)
    ensures DigitsValue(Zeros(k) + s) == DigitsValue(s)
    decreases |s|
  {
    if s == [] {
      assert Zeros(k) + s == Zeros(k);
      ZerosValue(k);
    } else {
      var t := Zeros(k) + s;
      assert t[..|t| - 1] == Zeros(k) + s[..|s| - 1];
      LeadingZerosValue(k, s[..|s| - 1]);
    }
  }

  lemma {:induction false} ZerosValue(k: nat)
    ensures DigitsValue(Zeros(k)) == 0
    decreases k
  {
    if k > 0 {
      assert Zeros(k)[..k - 1] == Zeros(k - 1);
      ZerosValue(k - 1);
    }
  }

  /** `f"{t:0{n}d}"` for a non-negative t: padded with zeros to n digits,
      never cut. */
  function Padded(t: nat, n: nat): (r: string)
    ensures |r| == if |NatToString(t)| < n then n else |NatToString(t)|
    ensures DigitsValue(r) == t
  {
    var s := NatToString(t);
    NatToStringValue(t);
    if |s| < n then
      LeadingZerosValue(n - |s|, s);
      Zeros(n - |s|) + s
    else s
  }

  // ---------------------------------------------------------------- filename_tag

  /** The digits of the iteration numbers: those of max_iter, 4 without a limit. */
  function TagWidth(maxIter: Option<nat>): (n: nat)
    ensures n >= 1
    ensures maxIter.None? ==> n == 4
  {
    if maxIter.None? then 4 else |NatToString(maxIter.value)|
  }

  /** `f"_{t:0{n}d}"`: one segment of the tag. */
  function Segment(t: nat, n: nat): string
  {
    "_" + Padded(t, n)
  }

  function SegmentFn(n: nat): nat -> string
  {
    (t: nat) => Segment(t, n)
  }

  /** `"".join(f(t) for t in ts)`. */
  function Joined(ts: seq<nat>, f: nat -> string): string
    decreases |ts|
  {
    if ts == [] then "" else f(ts[0]) + Joined(ts[1..], f)
  }

  /** The tag of the iteration numbers ts, one segment each. */
  function Segments(ts: seq<nat>, n: nat): string
  {
    Joined(ts, SegmentFn(n))
  }

  /** The scenario part: `_` and the name when there is a (non-empty) name. */
  function ScenarioPart(scenario: string): string
  {
    if scenario != "" then "_" + scenario else ""
  }

  /** What filename_tag returns. */
  function TagOf(scenario: string, includeIter: bool, maxIter: Option<nat>, node: seq<nat>): string
  {
    ScenarioPart(scenario) + (if includeIter then Segments(node, TagWidth(maxIter)) else "")
  }

  lemma {:induction false} JoinedSnoc(ts: seq<nat>, t: nat, f: nat -> string)
    ensures Joined(ts + [t], f) == Joined(ts, f) + f(t)
    decreases |ts|
  {
    if ts == [] {
      assert [t][1..] == [];
    } else {
      assert (ts + [t])[1..] == ts[1..] + [t];
      JoinedSnoc(ts[1..], t, f);
    }
  }

  lemma JoinedPrefixStep(ts: seq<nat>, i: nat, f: nat -> string)
    requires i < |ts|
    ensures Joined(ts[..i + 1], f) == Joined(ts[..i], f) + f(ts[i])
  {
    JoinedSnoc(ts[..i], ts[i], f);
    assert ts[..i + 1] == ts[..i] + [ts[i]];
  }

  /** The loop of filename_tag: one segment per iteration number. */
  method TagSegments(node: seq<nat>, n: nat) returns (segments: string)
    ensures segments == Segments(node, n)
  {
    segments := "";
    assert node[..0] == [];
    for i := 0 to |node|
      invariant segments == Joined(node[..i], SegmentFn(n))
    {
      JoinedPrefixStep(node, i, SegmentFn(n));
      segments := segments + Segment(node[i], n);
    }
    assert node[..|node|] == node;
  }

  /** filename_tag. */
  method FilenameTag(scenario: string, includeIter: bool, maxIter: Option<nat>, node: seq<nat>) returns (tag: string)
    ensures tag == TagOf(scenario, includeIter, maxIter, node)
  {
    tag := "";
    if scenario != "" {
      tag := "_" + scenario;
    }
    if includeIter {
      var n := if maxIter.None? then 4 else |NatToString(maxIter.value)|;
      var segments := TagSegments(node, n);
      tag := tag + segments;
    }
  }

  /** Reads segments of a fixed width back into iteration numbers. */
  function DecodeSegments(s: string, n: nat): seq<nat>
    decreases |s|
  {
    if |s| < n + 1 then [] else [DigitsValue(s[1..n + 1])] + DecodeSegments(s[n + 1..], n)
  }

  /** Segments of width n + 1 whose digits read back to their numbers decode
      to those numbers. */
  lemma {:induction false} JoinedRoundTrip(ts: seq<nat>, n: nat, f: nat -> string)
    requires forall i :: 0 <= i < |ts| ==> |f(ts[i])| == n + 1 && DigitsValue(f(ts[i])[1..]) == ts[i]
    ensures DecodeSegments(Joined(ts, f), n) == ts
    decreases |ts|
  {
    if ts != [] {
      forall i | 0 <= i < |ts[1..]|
        ensures |f(ts[1..][i])| == n + 1 && DigitsValue(f(ts[1..][i])[1..]) == ts[1..][i]
      {
        assert ts[1..][i] == ts[i + 1];
      }
      JoinedRoundTrip(ts[1..], n, f);
      var seg := f(ts[0]);
      var s := seg + Joined(ts[1..], f);
      assert s[1..n + 1] == seg[1..];
      assert s[n + 1..] == Joined(ts[1..], f);
      assert ts == [ts[0]] + ts[1..];
    }
  }

  /** Iteration numbers that fit the width are written with exactly that
      width, so the tag reads back to the same numbers. */
  lemma SegmentsRoundTrip(ts: seq<nat>, n: nat)
    requires forall i :: 0 <= i < |ts| ==> |NatToString(ts[i])| <= n
    ensures DecodeSegments(Segments(ts, n), n) == ts
  {
    var f := SegmentFn(n);
    forall i | 0 <= i < |ts| ensures |f(ts[i])| == n + 1 && DigitsValue(f(ts[i])[1..]) == ts[i] {
      var seg := Segment(ts[i], n);
      assert seg[1..] == Padded(ts[i], n);
    }
    JoinedRoundTrip(ts, n, f);
  }

  /** With max_iter given, every iteration number up to max_iter gets a
      segment of the same width, and two tags of the same scenario are equal
      only for the same iteration numbers. */
  lemma FilenameTagInjective(scenario: string, maxIter: nat, node1: seq<nat>, node2: seq<nat>)
    requires forall i :: 0 <= i < |node1| ==> node1[i] <= maxIter
    requires forall i :: 0 <= i < |node2| ==> node2[i] <= maxIter
    requires TagOf(scenario, true, Some(maxIter), node1) == TagOf(scenario, true, Some(maxIter), node2)
    ensures node1 == node2
  {
    var n := TagWidth(Some(maxIter));
    forall i | 0 <= i < |node1| ensures |NatToString(node1[i])| <= n {
      NatToStringLengthMonotone(node1[i], maxIter);
    }
    forall i | 0 <= i < |node2| ensures |NatToString(node2[i])| <= n {
      NatToStringLengthMonotone(node2[i], maxIter);
    }
    SegmentsRoundTrip(node1, n);
    SegmentsRoundTrip(node2, n);
    var p := ScenarioPart(scenario);
    var t1 := TagOf(scenario, true, Some(maxIter), node1);
    assert Segments(node1, n) == t1[|p|..];
    assert Segments(node2, n) == t1[|p|..];
  }

  // ---------------------------------------------------------------- add_dual

  /** One row of dual_costs.csv: (name, direction, bound, dual, total_cost). */
  datatype DualRow = DualRow(name: string, direction: string, bound: real, dual: real, totalCost: real)

  datatype DualError = NonZeroDualWithoutBound(name: string, side: string, dual: real)

  /** The zero band within which a dual of an unbounded side is tolerated. */
  const DualTolerance: real := 0.00001

  /** add_dual: a component without a dual adds nothing; otherwise the sign
      of the dual picks the binding side, an unbounded side must carry a
      (near) zero dual, and a row is appended when its total cost is not
      zero. */
  function AddDual(rows: seq<DualRow>, name: string, lbound: Option<real>, ubound: Option<real>,
                   dual: Option<real>, prefix: string, offset: real): (r: Result<seq<DualRow>, DualError>)
    ensures dual.None? ==> r == Ok(rows)
    ensures r.Err? <==> dual.Some? && (if dual.value >= 0.0 then lbound else ubound).None? &&
                        !(-DualTolerance < dual.value < DualTolerance)
    ensures r.Err? ==> r.error.side == (if dual.value > 0.0 then "lower" else "upper")
    ensures r.Ok? ==> r.value == rows || (|r.value| == |rows| + 1 && r.value[..|rows|] == rows)
    ensures r.Ok? && r.value != rows ==>
              var row := r.value[|rows|];
              var d := dual.value;
              && row.name == prefix + name && row.dual == d
              && (d >= 0.0 ==> row.direction == ">=" && lbound.Some? && row.bound == lbound.value + offset)
              && (d < 0.0 ==> row.direction == "<=" && ubound.Some? && row.bound == ubound.value + offset)
              && row.totalCost == d * row.bound && row.totalCost != 0.0
  {
    match dual
    case None => Ok(rows)
    case Some(d) =>
      var direction := if d >= 0.0 then ">=" else "<=";
      var bound := if d >= 0.0 then lbound else ubound;
      match bound
      case None =>
        if !(-DualTolerance < d < DualTolerance) then
          Err(NonZeroDualWithoutBound(name, if d > 0.0 then "lower" else "upper", d))
        else Ok(rows)
      case Some(b) =>
        var total := d * (b + offset);
        assert [DualRow(prefix + name, direction, b + offset, d, total)] != [];
        if total != 0.0 then Ok(rows + [DualRow(prefix + name, direction, b + offset, d, total)]) else Ok(rows)
  }

  /** A row whose total cost would be zero is never written, whatever its bound. */
  lemma ZeroDualAddsNothing(rows: seq<DualRow>, name: string, lbound: Option<real>, ubound: Option<real>,
                            prefix: string, offset: real)
    ensures AddDual(rows, name, lbound, ubound, Some(0.0), prefix, offset) == Ok(rows)
  {
  }

  // ---------------------------------------------------------------- the table's order

  predicate StartsWith(s: string, prefix: string)
  {
    |prefix| <= |s| && s[..|prefix|] == prefix
  }

  /** The first element of the sort key: rows of the convexity constraints first. */
  predicate NotConvexRow(r: DualRow)
  {
    !StartsWith(r.name, "DR_Convex_")
  }

  /** Python's `<` on strings: lexicographic by code point. */
  predicate StrLess(a: string, b: string)
    decreases |a|
  {
    if a == [] then b != []
    else if b == [] then false
    else if a[0] != b[0] then a[0] < b[0]
    else StrLess(a[1..], b[1..])
  }

  predicate BoolLess(a: bool, b: bool)
  {
    !a && b
  }

  /** `key(a) < key(b)` for the key (not DR_Convex_, dual >= 0) + row, compared
      as Python compares tuples. */
  predicate KeyLess(a: DualRow, b: DualRow)
  {
    if NotConvexRow(a) != NotConvexRow(b) then BoolLess(NotConvexRow(a), NotConvexRow(b))
    else if (a.dual >= 0.0) != (b.dual >= 0.0) then BoolLess(a.dual >= 0.0, b.dual >= 0.0)
    else if a.name != b.name then StrLess(a.name, b.name)
    else if a.direction != b.direction then StrLess(a.direction, b.direction)
    else if a.bound != b.bound then a.bound < b.bound
    else if a.dual != b.dual then a.dual < b.dual
    else a.totalCost < b.totalCost
  }

  /** What list.sort leaves: no row has a key smaller than an earlier row's. */
  predicate SortedByKey(rows: seq<DualRow>)
  {
    forall i, j :: 0 <= i < j < |rows| ==> !KeyLess(rows[j], rows[i])
  }

  /** In the sorted table the convexity-constraint rows come first and,
      within each group, negative duals come before the others. */
  lemma SortedTableOrder(rows: seq<DualRow>, i: nat, j: nat)
    requires SortedByKey(rows) && i < j < |rows|
    ensures NotConvexRow(rows[i]) ==> NotConvexRow(rows[j])
    ensures NotConvexRow(rows[i]) == NotConvexRow(rows[j]) && rows[i].dual >= 0.0 ==> rows[j].dual >= 0.0
  {
    assert !KeyLess(rows[j], rows[i]);
  }

  lemma {:induction false} StrLessIrreflexive(a: string)
    ensures !StrLess(a, a)
    decreases |a|
  {
    if a != [] {
      StrLessIrreflexive(a[1..]);
    }
  }

  /** The key order is strict: no row's key is below itself. */
  lemma KeyLessIrreflexive(a: DualRow)
    ensures !KeyLess(a, a)
  {
  }

  // ---------------------------------------------------------------- summary_headers

  /** str(p) for every period. */
  function PeriodTexts(periods: seq<int>): (r: seq<string>)
    ensures |r| == |periods|
    ensures forall i :: 0 <= i < |periods| ==> r[i] == IntToString(periods[i])
  {
    seq(|periods|, i requires 0 <= i < |periods| => IntToString(periods[i]))
  }

  /** A column name: the family's name followed by the period's text. */
  function Label(prefix: string, text: string): string
  {
    prefix + text
  }

  /** One column per period. */
  function Labelled(prefix: string, texts: seq<string>): (r: seq<string>)
    ensures |r| == |texts|
    ensures forall i :: 0 <= i < |texts| ==> r[i] == Label(prefix, texts[i])
  {
    seq(|texts|, i requires 0 <= i < |texts| => Label(prefix, texts[i]))
  }

  /** The per-period column families, sectors outer for payments and sales. */
  const Families: seq<string> := [
    "total_direct_costs_per_year_", "DR_Welfare_Cost_",
    "payment EI", "payment RC", "gas sold EI", "gas sold RC"]

  const FixedHeaders: seq<string> := ["tag", "iteration", "total_cost"]

  /** The fixed columns followed by the first k families, one column per period each. */
  function Columns(fixed: seq<string>, fams: seq<string>, texts: seq<string>, k: nat): seq<string>
    requires k <= |fams|
  {
    if k == 0 then fixed else Columns(fixed, fams, texts, k - 1) + Labelled(fams[k - 1], texts)
  }

  /** summary_headers. */
  function SummaryHeaders(periods: seq<int>): seq<string>
  {
    Columns(FixedHeaders, Families, PeriodTexts(periods), |Families|)
  }

  /** No column so far starts with the name of a family still to come. */
  predicate Fresh(cols: seq<string>, fams: seq<string>, k: nat)
  {
    forall x, j :: x in cols && k <= j < |fams| ==> !StartsWith(x, fams[j])
  }

  /** No text starts with the names of two different families. */
  ghost predicate PrefixExclusive(fams: seq<string>)
  {
    forall x, f, g :: 0 <= f < |fams| && 0 <= g < |fams| && f != g && StartsWith(x, fams[f]) ==> !StartsWith(x, fams[g])
  }

  /** No fixed column starts with a family's name. */
  predicate FixedApart(fixed: seq<string>, fams: seq<string>)
  {
    forall x, f :: x in fixed && 0 <= f < |fams| ==> !StartsWith(x, fams[f])
  }

  /** The position at which two different families' names differ. */
  function FamilyClash(f: nat, g: nat): nat
  {
    if (f == 2 && g == 3) || (f == 3 && g == 2) then 8
    else if (f == 4 && g == 5) || (f == 5 && g == 4) then 9
    else 0
  }

  lemma NotPrefixAt(x: string, p: string, c: nat)
    requires c < |p| && c < |x| && x[c] != p[c]
    ensures !StartsWith(x, p)
  {
    if |p| <= |x| {
      assert x[..|p|][c] == x[c];
    }
  }

  lemma FamiliesExclusive(x: string, f: nat, g: nat)
    requires f < |Families| && g < |Families| && f != g
    requires StartsWith(x, Families[f])
    ensures !StartsWith(x, Families[g])
  {
    var c := FamilyClash(f, g);
    assert c < |Families[f]| && c < |Families[g]| && Families[f][c] != Families[g][c];
    assert x[..|Families[f]|][c] == x[c];
    NotPrefixAt(x, Families[g], c);
  }

  lemma FamiliesPrefixExclusive()
    ensures PrefixExclusive(Families)
  {
    forall x, f, g | 0 <= f < |Families| && 0 <= g < |Families| && f != g && StartsWith(x, Families[f])
      ensures !StartsWith(x, Families[g])
    {
      FamiliesExclusive(x, f, g);
    }
  }

  lemma FixedNotFamily(j: nat, f: nat)
    requires j < |FixedHeaders| && f < |Families|
    ensures !StartsWith(FixedHeaders[j], Families[f])
  {
    var h := FixedHeaders[j];
    if |Families[f]| <= |h| {
      NotPrefixAt(h, Families[f], 0);
    }
  }

  lemma FixedHeadersApart()
    ensures FixedApart(FixedHeaders, Families) && Distinct(FixedHeaders)
  {
    forall x, f | x in FixedHeaders && 0 <= f < |Families| ensures !StartsWith(x, Families[f]) {
      var i :| 0 <= i < |FixedHeaders| && FixedHeaders[i] == x;
      FixedNotFamily(i, f);
    }
  }

  lemma PeriodTextsDistinct(periods: seq<int>)
    requires Distinct(periods)
    ensures Distinct(PeriodTexts(periods))
  {
    var t := PeriodTexts(periods);
    forall a, b | 0 <= a < b < |t| ensures t[a] != t[b] {
      if t[a] == t[b] {
        IntToStringInjective(periods[a], periods[b]);
      }
    }
  }

  lemma LabelledDistinct(prefix: string, texts: seq<string>)
    requires Distinct(texts)
    ensures Distinct(Labelled(prefix, texts))
  {
    var l := Labelled(prefix, texts);
    forall a, b | 0 <= a < b < |l| ensures l[a] != l[b] {
      assert l[a][|prefix|..] == texts[a] && l[b][|prefix|..] == texts[b];
    }
  }

  lemma LabelledStartsWith(prefix: string, texts: seq<string>, x: string)
    requires x in Labelled(prefix, texts)
    ensures StartsWith(x, prefix)
  {
    var l := Labelled(prefix, texts);
    var i :| 0 <= i < |l| && l[i] == x;
    assert x[..|prefix|] == prefix;
  }

  lemma DistinctConcat(a: seq<string>, b: seq<string>)
    requires Distinct(a) && Distinct(b)
    requires forall x :: x in a ==> x !in b
    ensures Distinct(a + b)
  {
    var c := a + b;
    forall i, j | 0 <= i < j < |c| ensures c[i] != c[j] {
      if i < |a| && j >= |a| {
        assert c[i] in a && c[j] == b[j - |a|];
      } else if i >= |a| {
        assert c[i] == b[i - |a|] && c[j] == b[j - |a|];
      }
    }
  }

  lemma {:induction false} ColumnsDistinct(fixed: seq<string>, fams: seq<string>, texts: seq<string>, k: nat)
    requires Distinct(texts) && Distinct(fixed) && k <= |fams|
    requires PrefixExclusive(fams) && FixedApart(fixed, fams)
    ensures Distinct(Columns(fixed, fams, texts, k)) && Fresh(Columns(fixed, fams, texts, k), fams, k)
    decreases k
  {
    if k > 0 {
      var a := Columns(fixed, fams, texts, k - 1);
      var l := Labelled(fams[k - 1], texts);
      ColumnsDistinct(fixed, fams, texts, k - 1);
      LabelledDistinct(fams[k - 1], texts);
      forall x | x in l ensures StartsWith(x, fams[k - 1]) {
        LabelledStartsWith(fams[k - 1], texts, x);
      }
      DistinctConcat(a, l);
    }
  }

  lemma {:induction false} ColumnsLength(fixed: seq<string>, fams: seq<string>, texts: seq<string>, k: nat)
    requires k <= |fams|
    ensures |Columns(fixed, fams, texts, k)| == |fixed| + k * |texts|
    ensures Columns(fixed, fams, texts, k)[..|fixed|] == fixed
    decreases k
  {
    if k > 0 {
      ColumnsLength(fixed, fams, texts, k - 1);
      var a := Columns(fixed, fams, texts, k - 1);
      assert (a + Labelled(fams[k - 1], texts))[..|fixed|] == a[..|fixed|];
      assert (k - 1) * |texts| + |texts| == k * |texts|;
    }
  }

  lemma {:induction false} ColumnsCover(fixed: seq<string>, fams: seq<string>, texts: seq<string>, k: nat,
                                        j: nat, i: nat)
    requires j < k <= |fams| && i < |texts|
    ensures Label(fams[j], texts[i]) in Columns(fixed, fams, texts, k)
    decreases k
  {
    var a := Columns(fixed, fams, texts, k - 1);
    var l := Labelled(fams[k - 1], texts);
    if j == k - 1 {
      assert l[i] == Label(fams[j], texts[i]);
      assert Label(fams[j], texts[i]) in l;
    } else {
      ColumnsCover(fixed, fams, texts, k - 1, j, i);
    }
  }

  /** The summary has the three fixed columns first, then one column per
      family and period (payments and sales per sector and period), and no
      other: with distinct periods no two columns share a name. */
  lemma SummaryHeadersShape(periods: seq<int>)
    ensures |SummaryHeaders(periods)| == 3 + 6 * |periods|
    ensures SummaryHeaders(periods)[..3] == ["tag", "iteration", "total_cost"]
    ensures forall j, i :: 0 <= j < 6 && 0 <= i < |periods| ==>
              Families[j] + IntToString(periods[i]) in SummaryHeaders(periods)
    ensures Distinct(periods) ==> Distinct(SummaryHeaders(periods))
  {
    var texts := PeriodTexts(periods);
    ColumnsLength(FixedHeaders, Families, texts, |Families|);
    forall j, i | 0 <= j < 6 && 0 <= i < |periods|
      ensures Families[j] + IntToString(periods[i]) in SummaryHeaders(periods)
    {
      ColumnsCover(FixedHeaders, Families, texts, |Families|, j, i);
    }
    if Distinct(periods) {
      PeriodTextsDistinct(periods);
      FamiliesPrefixExclusive();
      FixedHeadersApart();
      ColumnsDistinct(FixedHeaders, Families, texts, |Families|);
    }
  }
}
