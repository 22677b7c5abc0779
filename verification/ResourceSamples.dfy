/** Named columns of data points: merging them, and printing them as a table of running sums. */
module ResourceSamples {
  import opened Wrappers

  const U64_MAX: nat := 0xFFFF_FFFF_FFFF_FFFF

  /** A sample as a value: its name and its data points. */
  datatype Entry = Entry(name: string, points: seq<nat>)

  function Reversed<T>(s: seq<T>): (r: seq<T>)
    ensures |r| == |s| && forall i | 0 <= i < |s| :: r[i] == s[|s| - 1 - i]
  {
    seq(|s|, i requires 0 <= i < |s| => s[|s| - 1 - i])
  }

  // ---- Columns as zero-padded rows of numbers

  function At(s: seq<nat>, i: nat): nat {
    if i < |s| then s[i] else 0
  }

  /** The sum of the first `n` points, with zeros past the end. */
  function SumTo(s: seq<nat>, n: nat): nat {
    if n == 0 then 0 else SumTo(s, n - 1) + At(s, n - 1)
  }

  lemma {:induction false} SumPastEnd(s: seq<nat>, n: nat)
    requires |s| <= n
    ensures SumTo(s, n) == SumTo(s, |s|)
  {
    if |s| < n {
      SumPastEnd(s, n - 1);
    }
  }

  lemma {:induction false} SumMonotone(s: seq<nat>, m: nat, n: nat)
    requires m <= n
    ensures SumTo(s, m) <= SumTo(s, n)
  {
    if m < n {
      SumMonotone(s, m, n - 1);
    }
  }

  /** Both lists added row by row, as long as the longer one. */
  function Accrue(points: seq<nat>, add: seq<nat>): (r: seq<nat>)
    ensures |r| == (if |points| < |add| then |add| else |points|)
    ensures forall i: nat :: At(r, i) == At(points, i) + At(add, i)
  {
    seq(if |points| < |add| then |add| else |points|, i requires 0 <= i => At(points, i) + At(add, i))
  }

  // ---- Merging

  /** What an entry contributes to row `k` of the column `name`. */
  function Part(e: Entry, name: string, k: nat): nat {
    if e.name == name then At(e.points, k) else 0
  }

  function TotalTo(es: seq<Entry>, name: string, k: nat, n: nat): nat
    requires n <= |es|
  {
    if n == 0 then 0 else TotalTo(es, name, k, n - 1) + Part(es[n - 1], name, k)
  }

  /** Row `k` of everything called `name`. */
  function Total(es: seq<Entry>, name: string, k: nat): nat {
    TotalTo(es, name, k, |es|)
  }

  predicate UniqueNames(es: seq<Entry>) {
    forall i, j | 0 <= i < j < |es| :: es[i].name != es[j].name
  }

  /** The first entry from `i` on with the given name, or the end. */
  function FirstNamed(es: seq<Entry>, name: string, i: nat): (j: nat)
    requires i <= |es|
    ensures i <= j <= |es| && (j < |es| ==> es[j].name == name)
    ensures forall k | i <= k < j :: es[k].name != name
    decreases |es| - i
  {
    if i == |es| || es[i].name == name then i else FirstNamed(es, name, i + 1)
  }

  /** One entry merged: accrued into the first of its name, or put at the end. */
  function Absorbed(es: seq<Entry>, e: Entry): seq<Entry> {
    var j := FirstNamed(es, e.name, 0);
    if j < |es| then es[j := Entry(e.name, Accrue(es[j].points, e.points))] else es + [e]
  }

  function Folded(es: seq<Entry>, add: seq<Entry>, n: nat): seq<Entry>
    requires n <= |add|
  {
    if n == 0 then es else Absorbed(Folded(es, add, n - 1), add[n - 1])
  }

  /** What merging `add` into `es` leaves. */
  function Extended(es: seq<Entry>, add: seq<Entry>): seq<Entry> {
    Reversed(Folded(Reversed(es), add, |add|))
  }

  lemma {:induction false} TotalReversed(es: seq<Entry>, name: string, k: nat, n: nat)
    requires n <= |es|
    ensures TotalTo(Reversed(es), name, k, n) + TotalTo(es, name, k, |es| - n) == Total(es, name, k)
  {
    if n > 0 {
      TotalReversed(es, name, k, n - 1);
    }
  }

  lemma {:induction false} TotalSame(es: seq<Entry>, v: seq<Entry>, name: string, k: nat, n: nat)
    requires n <= |es| && n <= |v| && forall i: nat | i < n :: v[i] == es[i]
    ensures TotalTo(v, name, k, n) == TotalTo(es, name, k, n)
  {
    if n > 0 {
      TotalSame(es, v, name, k, n - 1);
    }
  }

  lemma {:induction false} TotalReplaced(es: seq<Entry>, j: nat, e: Entry, name: string, k: nat, n: nat)
    requires j < n <= |es|
    ensures TotalTo(es[j := e], name, k, n) == TotalTo(es, name, k, n) - Part(es[j], name, k) + Part(e, name, k)
  {
    if n == j + 1 {
      TotalSame(es, es[j := e], name, k, j);
    } else {
      TotalReplaced(es, j, e, name, k, n - 1);
    }
  }

  lemma TotalAbsorbed(es: seq<Entry>, e: Entry, name: string, k: nat)
    ensures Total(Absorbed(es, e), name, k) == Total(es, name, k) + Part(e, name, k)
  {
    var j := FirstNamed(es, e.name, 0);
    if j < |es| {
      TotalReplaced(es, j, Entry(e.name, Accrue(es[j].points, e.points)), name, k, |es|);
    } else {
      TotalSame(es, es + [e], name, k, |es|);
    }
  }

  lemma {:induction false} TotalFolded(es: seq<Entry>, add: seq<Entry>, name: string, k: nat, n: nat)
    requires n <= |add|
    ensures Total(Folded(es, add, n), name, k) == Total(es, name, k) + TotalTo(add, name, k, n)
  {
    if n > 0 {
      TotalFolded(es, add, name, k, n - 1);
      TotalAbsorbed(Folded(es, add, n - 1), add[n - 1], name, k);
    }
  }

  /** Merging conserves data: each row of each name ends with the sum of both sides. */
  lemma MergeConserves(es: seq<Entry>, add: seq<Entry>, name: string, k: nat)
    ensures Total(Extended(es, add), name, k) == Total(es, name, k) + Total(add, name, k)
  {
    var folded := Folded(Reversed(es), add, |add|);
    TotalReversed(es, name, k, |es|);
    TotalFolded(Reversed(es), add, name, k, |add|);
    TotalReversed(folded, name, k, |folded|);
  }

  // ---- How long the merged columns are

  function LengthTo(es: seq<Entry>, name: string, n: nat): nat
    requires n <= |es|
  {
    if n == 0 then 0 else Longer(LengthTo(es, name, n - 1), if es[n - 1].name == name then |es[n - 1].points| else 0)
  }

  /** The length of the longest column of that name. */
  function Length(es: seq<Entry>, name: string): nat {
    LengthTo(es, name, |es|)
  }

  function Longer(a: nat, b: nat): nat {
    if a < b then b else a
  }

  lemma {:induction false} LengthIsLongest(es: seq<Entry>, name: string, n: nat)
    requires n <= |es|
    ensures forall i: nat | i < n && es[i].name == name :: |es[i].points| <= LengthTo(es, name, n)
    ensures LengthTo(es, name, n) == 0 ||
            exists i: nat :: i < n && es[i].name == name && |es[i].points| == LengthTo(es, name, n)
  {
    if n > 0 {
      LengthIsLongest(es, name, n - 1);
    }
  }

  /** `n` is the length of the longest column of that name, and 0 when there is none. */
  ghost predicate IsLongest(es: seq<Entry>, name: string, n: nat) {
    && (forall i: nat | i < |es| && es[i].name == name :: |es[i].points| <= n)
    && (n == 0 || exists i: nat :: i < |es| && es[i].name == name && |es[i].points| == n)
  }

  lemma LengthIs(es: seq<Entry>, name: string)
    ensures IsLongest(es, name, Length(es, name))
  {
    LengthIsLongest(es, name, |es|);
  }

  lemma LongestOnce(es: seq<Entry>, name: string, m: nat, n: nat)
    requires IsLongest(es, name, m) && IsLongest(es, name, n)
    ensures m == n
  {
  }

  lemma ReversedLongest(es: seq<Entry>, name: string, n: nat)
    requires IsLongest(es, name, n)
    ensures IsLongest(Reversed(es), name, n)
  {
    if n > 0 {
      var i: nat :| i < |es| && es[i].name == name && |es[i].points| == n;
      assert Reversed(es)[|es| - 1 - i] == es[i];
    }
  }

  lemma AbsorbedLongest(es: seq<Entry>, e: Entry, name: string, n: nat)
    requires IsLongest(es, name, n)
    ensures IsLongest(Absorbed(es, e), name, if e.name == name then Longer(n, |e.points|) else n)
  {
    var v, j := Absorbed(es, e), FirstNamed(es, e.name, 0);
    if e.name != name && n > 0 {
      var i: nat :| i < |es| && es[i].name == name && |es[i].points| == n;
      assert v[i] == es[i];
    } else if e.name == name && j < |es| {
      assert |v[j].points| == Longer(|es[j].points|, |e.points|);
      if Longer(n, |e.points|) != |v[j].points| {
        var i: nat :| i < |es| && es[i].name == name && |es[i].points| == n;
        assert v[i] == es[i];
      }
    } else if e.name == name {
      assert v[|es|] == e;
    }
  }

  lemma {:induction false} FoldedLongest(es: seq<Entry>, add: seq<Entry>, name: string, m: nat, n: nat)
    requires n <= |add| && IsLongest(es, name, m)
    ensures IsLongest(Folded(es, add, n), name, Longer(m, LengthTo(add, name, n)))
  {
    if n > 0 {
      FoldedLongest(es, add, name, m, n - 1);
      AbsorbedLongest(Folded(es, add, n - 1), add[n - 1], name, Longer(m, LengthTo(add, name, n - 1)));
    }
  }

  /** Merging keeps every row and adds none: a name's column is as long as the longest of that name on either side. */
  lemma MergeKeepsLength(es: seq<Entry>, add: seq<Entry>, name: string)
    ensures Length(Extended(es, add), name) == Longer(Length(es, name), Length(add, name))
  {
    LengthIs(es, name);
    LengthIs(Extended(es, add), name);
    ReversedLongest(es, name, Length(es, name));
    FoldedLongest(Reversed(es), add, name, Length(es, name), |add|);
    ReversedLongest(Folded(Reversed(es), add, |add|), name, Longer(Length(es, name), Length(add, name)));
    LongestOnce(Extended(es, add), name, Length(Extended(es, add), name), Longer(Length(es, name), Length(add, name)));
  }

  // ---- Which columns there are

  /** The names of `add` that are new to `names`, each once, in order of first appearance. */
  function NewNames(add: seq<Entry>, names: seq<string>, n: nat): (r: seq<string>)
    requires n <= |add|
  {
    if n == 0 then []
    else
      var r := NewNames(add, names, n - 1);
      if add[n - 1].name in names || add[n - 1].name in r then r else r + [add[n - 1].name]
  }

  function NamesOf(es: seq<Entry>): (r: seq<string>)
    ensures |r| == |es| && forall i | 0 <= i < |es| :: r[i] == es[i].name
  {
    seq(|es|, i requires 0 <= i < |es| => es[i].name)
  }

  lemma NamesAbsorbed(es: seq<Entry>, e: Entry)
    ensures NamesOf(Absorbed(es, e)) == if e.name in NamesOf(es) then NamesOf(es) else NamesOf(es) + [e.name]
  {
    var j := FirstNamed(es, e.name, 0);
    if j < |es| {
      assert NamesOf(es)[j] == e.name;
      assert NamesOf(Absorbed(es, e)) == NamesOf(es);
    } else {
      assert NamesOf(Absorbed(es, e)) == NamesOf(es) + [e.name];
    }
  }

  lemma {:induction false} NamesFolded(es: seq<Entry>, add: seq<Entry>, n: nat)
    requires n <= |add|
    ensures NamesOf(Folded(Reversed(es), add, n)) == Reversed(NamesOf(es)) + NewNames(add, NamesOf(es), n)
  {
    if n == 0 {
      NamesReversed(es);
    } else {
      NamesFolded(es, add, n - 1);
      NamesAbsorbed(Folded(Reversed(es), add, n - 1), add[n - 1]);
      ReversedHas(NamesOf(es), add[n - 1].name);
    }
  }

  lemma NamesReversed(es: seq<Entry>)
    ensures NamesOf(Reversed(es)) == Reversed(NamesOf(es))
  {
  }

  lemma ReversedAppend(a: seq<string>, b: seq<string>)
    ensures Reversed(Reversed(a) + b) == Reversed(b) + a
  {
  }

  lemma ReversedHas(names: seq<string>, name: string)
    ensures name in Reversed(names) <==> name in names
  {
    if name in names {
      var i :| 0 <= i < |names| && names[i] == name;
      assert Reversed(names)[|names| - 1 - i] == name;
    }
  }

  /** The samples already there keep their order; new ones go in front, the last one added first. */
  lemma MergeKeepsOrder(es: seq<Entry>, add: seq<Entry>)
    ensures NamesOf(Extended(es, add)) == Reversed(NewNames(add, NamesOf(es), |add|)) + NamesOf(es)
  {
    var names, news := NamesOf(es), NewNames(add, NamesOf(es), |add|);
    NamesFolded(es, add, |add|);
    NamesReversed(Folded(Reversed(es), add, |add|));
    ReversedAppend(names, news);
  }

  predicate Distinct(names: seq<string>) {
    forall i, j | 0 <= i < j < |names| :: names[i] != names[j]
  }

  predicate Disjoint(names: seq<string>, others: seq<string>) {
    forall i | 0 <= i < |names| :: names[i] !in others
  }

  /** The names end up as "the old ones, then the new ones" exactly when there is nothing to reverse. */
  lemma MergeAppendsIff(es: seq<Entry>, add: seq<Entry>)
    ensures var names, news := NamesOf(es), NewNames(add, NamesOf(es), |add|);
            NamesOf(Extended(es, add)) == names + news <==> news == [] || (names == [] && |news| == 1)
  {
    var names, news := NamesOf(es), NewNames(add, NamesOf(es), |add|);
    MergeKeepsOrder(es, add);
    NewNamesDistinct(add, names, |add|);
    if news != [] {
      assert (Reversed(news) + names)[0] == news[|news| - 1];
      assert (names + news)[0] == if names != [] then names[0] else news[0];
      assert |news| == 1 ==> Reversed(news) == news;
    }
  }

  lemma {:induction false} NewNamesDistinct(add: seq<Entry>, names: seq<string>, n: nat)
    requires n <= |add|
    ensures Distinct(NewNames(add, names, n)) && Disjoint(NewNames(add, names, n), names)
  {
    if n > 0 {
      NewNamesDistinct(add, names, n - 1);
      DistinctAppend(NewNames(add, names, n - 1), names, add[n - 1].name);
    }
  }

  lemma DistinctAppend(r: seq<string>, names: seq<string>, name: string)
    requires Distinct(r) && Disjoint(r, names)
    ensures name !in r && name !in names ==> Distinct(r + [name]) && Disjoint(r + [name], names)
  {
    assert forall i | 0 <= i < |r| :: r[i] in r;
  }

  /** Unique names stay unique, whatever repetitions are added. */
  lemma MergeKeepsUnique(es: seq<Entry>, add: seq<Entry>)
    requires UniqueNames(es)
    ensures UniqueNames(Extended(es, add))
  {
    MergeKeepsOrder(es, add);
    NewNamesDistinct(add, NamesOf(es), |add|);
    var v, news := Extended(es, add), Reversed(NewNames(add, NamesOf(es), |add|));
    forall i, j | 0 <= i < j < |v| ensures v[i].name != v[j].name {
      assert v[i].name == NamesOf(v)[i] && v[j].name == NamesOf(v)[j];
      if |news| <= i {
        assert v[i].name == es[i - |news|].name && v[j].name == es[j - |news|].name;
      } else if |news| <= j {
        assert NamesOf(es)[j - |news|] in NamesOf(es);
      }
    }
  }

  // ---- Accruing and extending in place

  predicate WordsOnly(points: seq<nat>) {
    forall i | 0 <= i < |points| :: points[i] <= U64_MAX
  }

  predicate EntriesFit(es: seq<Entry>) {
    forall i | 0 <= i < |es| :: WordsOnly(es[i].points)
  }

  /** Adds `add` into the points row by row; None stands for the panic of a sum that does not fit a word. */
  method AccruePoints(points: seq<nat>, add: seq<nat>) returns (r: Option<seq<nat>>)
    requires WordsOnly(points) && WordsOnly(add)
    ensures r.Some? <==> WordsOnly(Accrue(points, add))
    ensures r.Some? ==> r.value == Accrue(points, add)
  {
    var sum := points;
    var i := 0;
    while i < |sum|
      invariant i <= |sum| == |points|
      invariant forall k: nat | k < i :: sum[k] == points[k] + At(add, k) <= U64_MAX
      invariant forall k: nat | i <= k < |sum| :: sum[k] == points[k]
    {
      if i < |add| {
        if sum[i] + add[i] > U64_MAX {
          assert Accrue(points, add)[i] == At(Accrue(points, add), i);
          return None;
        }
        sum := sum[i := sum[i] + add[i]];
      }
      i := i + 1;
    }
    if |add| > |sum| {
      sum := sum + add[|sum|..];
    }
    assert forall k: nat | k < |sum| :: sum[k] == At(Accrue(points, add), k);
    return Some(sum);
  }

  /** What does not fit stays so, whatever else is merged. */
  lemma AbsorbedUnfit(es: seq<Entry>, e: Entry)
    requires !EntriesFit(es)
    ensures !EntriesFit(Absorbed(es, e))
  {
    var i :| 0 <= i < |es| && !WordsOnly(es[i].points);
    var k :| 0 <= k < |es[i].points| && es[i].points[k] > U64_MAX;
    var v := Absorbed(es, e);
    assert At(v[i].points, k) >= At(es[i].points, k);
    assert !WordsOnly(v[i].points);
  }

  lemma {:induction false} FoldedUnfit(es: seq<Entry>, add: seq<Entry>, m: nat, n: nat)
    requires m <= n <= |add| && !EntriesFit(Folded(es, add, m))
    ensures !EntriesFit(Folded(es, add, n))
    decreases n
  {
    if m < n {
      FoldedUnfit(es, add, m, n - 1);
      AbsorbedUnfit(Folded(es, add, n - 1), add[n - 1]);
    }
  }

  lemma ReversedFits(es: seq<Entry>)
    ensures EntriesFit(Reversed(es)) <==> EntriesFit(es)
  {
    if EntriesFit(Reversed(es)) {
      forall i | 0 <= i < |es| ensures WordsOnly(es[i].points) {
        assert Reversed(es)[|es| - 1 - i] == es[i];
      }
    }
  }

  class Samples {
    /** Each sample is owned by the list, so changing one is an update of the list. */
    var inner: seq<Entry>

    constructor (inner: seq<Entry>)
      ensures this.inner == inner
    {
      this.inner := inner;
    }

    method Find(name: string) returns (j: nat)
      ensures j == FirstNamed(inner, name, 0)
    {
      j := 0;
      while j < |inner|
        invariant j <= |inner| && FirstNamed(inner, name, 0) == FirstNamed(inner, name, j)
      {
        if inner[j].name == name {
          return;
        }
        j := j + 1;
      }
    }

    /** Merges one sample; false when a sum does not fit a word. */
    method Absorb(e: Entry) returns (ok: bool)
      requires EntriesFit(inner) && WordsOnly(e.points)
      modifies this
      ensures ok <==> EntriesFit(Absorbed(old(inner), e))
      ensures ok ==> inner == Absorbed(old(inner), e)
    {
      var j := Find(e.name);
      if j < |inner| {
        var points := AccruePoints(inner[j].points, e.points);
        if points.None? {
          assert !WordsOnly(Absorbed(inner, e)[j].points);
          return false;
        }
        inner := inner[j := inner[j].(points := points.value)];
      } else {
        inner := inner + [e];
      }
      return true;
    }

    /** Merges `add` one by one, between two reversals; fails exactly when a sum of the result does not fit a word. */
    method Extend(add: seq<Entry>) returns (ok: bool)
      requires EntriesFit(inner) && EntriesFit(add)
      modifies this
      ensures ok <==> EntriesFit(Extended(old(inner), add))
      ensures ok ==> inner == Extended(old(inner), add)
    {
      ReversedFits(inner);
      inner := Reversed(inner);
      ghost var base := inner;
      ReversedFits(Folded(base, add, |add|));
      var n := 0;
      while n < |add|
        invariant n <= |add| && inner == Folded(base, add, n) && EntriesFit(inner)
      {
        var absorbed := Absorb(add[n]);
        if !absorbed {
          FoldedUnfit(base, add, n + 1, |add|);
          return false;
        }
        n := n + 1;
      }
      inner := Reversed(inner);
      return true;
    }
  }

  // ---- The table of running sums

  predicate AllEmpty(es: seq<Entry>) {
    forall i | 0 <= i < |es| :: es[i].points == []
  }

  /** Row `i` of the printed table: the sum of each column down to it. */
  predicate IsRunningSum(es: seq<Entry>, row: seq<nat>, i: nat) {
    |row| == |es| && forall c: nat | c < |es| :: row[c] == SumTo(es[c].points, i + 1)
  }

  predicate IsTable(es: seq<Entry>, rows: seq<seq<nat>>) {
    && (forall c: nat | c < |es| :: |es[c].points| <= |rows|)
    && (rows == [] || exists c: nat :: c < |es| && |es[c].points| == |rows|)
    && forall i: nat | i < |rows| :: IsRunningSum(es, rows[i], i)
  }

  /** Every column's total fits a word. */
  predicate TotalsFit(es: seq<Entry>) {
    forall c: nat | c < |es| :: SumTo(es[c].points, |es[c].points|) <= U64_MAX
  }

  /** The running sums; None stands for the panic of a sum that overflows. */
  method Rows(es: seq<Entry>) returns (r: Option<seq<seq<nat>>>)
    ensures r.Some? <==> TotalsFit(es)
    ensures r.Some? ==> IsTable(es, r.value) && (r.value == [] <==> AllEmpty(es))
  {
    if AllEmpty(es) {
      return Some([]);
    }
    var rows: seq<seq<nat>> := [];
    var maxRow := LongestColumn(es);
    var cache := new nat[|es|](_ => 0);
    var rowIndex := 0;
    while rowIndex < maxRow
      invariant rowIndex <= maxRow && |rows| == rowIndex
      invariant cache.Length == |es| && forall c: nat | c < |es| :: cache[c] == SumTo(es[c].points, rowIndex)
      invariant forall c: nat | c < |es| :: SumTo(es[c].points, rowIndex) <= U64_MAX
      invariant forall i: nat | i < rowIndex :: IsRunningSum(es, rows[i], i)
    {
      var row := [];
      var index := 0;
      while index < |es|
        invariant index <= |es| == cache.Length && |row| == index
        invariant forall c: nat | c < index :: cache[c] == SumTo(es[c].points, rowIndex + 1) == row[c] <= U64_MAX
        invariant forall c: nat | index <= c < |es| :: cache[c] == SumTo(es[c].points, rowIndex)
      {
        var acc := cache[index] + At(es[index].points, rowIndex);
        if acc > U64_MAX {
          SumWithin(es[index].points, rowIndex + 1);
          return None;
        }
        cache[index] := acc;
        row := row + [acc];
        index := index + 1;
      }
      rows := rows + [row];
      rowIndex := rowIndex + 1;
    }
    forall c: nat | c < |es| ensures SumTo(es[c].points, |es[c].points|) <= U64_MAX {
      SumWithin(es[c].points, |es[c].points|);
      SumPastEnd(es[c].points, maxRow);
    }
    return Some(rows);
  }

  /** A running sum never exceeds its column's total. */
  lemma SumWithin(s: seq<nat>, n: nat)
    ensures SumTo(s, n) <= SumTo(s, |s|)
  {
    if n <= |s| {
      SumMonotone(s, n, |s|);
    } else {
      SumPastEnd(s, n);
    }
  }

  method LongestColumn(es: seq<Entry>) returns (n: nat)
    ensures forall c: nat | c < |es| :: |es[c].points| <= n
    ensures n == 0 || exists c: nat :: c < |es| && |es[c].points| == n
  {
    n := 0;
    var i := 0;
    while i < |es|
      invariant i <= |es|
      invariant forall c: nat | c < i :: |es[c].points| <= n
      invariant n == 0 || exists c: nat :: c < i && |es[c].points| == n
    {
      if n < |es[i].points| {
        n := |es[i].points|;
      }
      i := i + 1;
    }
  }

  /** The last row shows every column's total, and no cell above exceeds it. */
  lemma LastRowIsTotals(es: seq<Entry>, rows: seq<seq<nat>>)
    requires IsTable(es, rows) && rows != []
    ensures |rows[|rows| - 1]| == |es|
    ensures forall c: nat | c < |es| :: rows[|rows| - 1][c] == SumTo(es[c].points, |es[c].points|)
    ensures forall i: nat, c: nat | i < |rows| && c < |es| ::
              |rows[i]| == |es| && rows[i][c] <= SumTo(es[c].points, |es[c].points|)
  {
    forall i: nat, c: nat | i < |rows| && c < |es|
      ensures rows[i][c] <= rows[|rows| - 1][c] == SumTo(es[c].points, |es[c].points|)
    {
      assert IsRunningSum(es, rows[i], i) && IsRunningSum(es, rows[|rows| - 1], |rows| - 1);
      SumMonotone(es[c].points, i + 1, |rows|);
      SumPastEnd(es[c].points, |rows|);
    }
  }
}
