/** Extrapolating storage use over days, and splitting the days into the rows of a table. */
module Extrapolation {
  import opened Wrappers
  import opened ResourceSamples

  /** The panics of the source: a zero divisor, a subtraction below zero, or a result over the largest word. */
  datatype UsageError = DivideByZero | Underflow | Overflow

  datatype RunStats = RunStats(allocation: nat, modification: nat, cleanup: nat, last: nat) {
    function Total(): nat {
      allocation + modification + cleanup
    }
  }

  /** The three growths of a run add up to the growth between its two ends; a database that shrinks panics. */
  function NewRunStats(
    initial: nat, afterAlloc: nat, afterMod: nat, afterCleanup: nat): (r: Result<RunStats, UsageError>)
    ensures r.Ok? <==> initial <= afterAlloc <= afterMod <= afterCleanup
    ensures r.Ok? ==> initial + r.value.allocation == afterAlloc && afterAlloc + r.value.modification == afterMod
    ensures r.Ok? ==> afterMod + r.value.cleanup == afterCleanup == r.value.last
    ensures r.Ok? ==> r.value.Total() == r.value.last - initial
  {
    if afterAlloc < initial || afterMod < afterAlloc || afterCleanup < afterMod then Err(Underflow)
    else Ok(RunStats(afterAlloc - initial, afterMod - afterAlloc, afterCleanup - afterMod, afterCleanup))
  }

  /** Counts that are non-zero words by type in the source. */
  type Positive = n: nat | 1 <= n <= U64_MAX witness 1

  datatype Request = Request(days: Positive, tableEntries: Positive, usageOnly: bool, turnover: nat, cycles: nat)

  function Min(a: nat, b: nat): nat {
    if a < b then a else b
  }

  /** The days of a table: as many rows as fit, equal but for the last, which takes the remainder. */
  predicate IsDayColumn(d: seq<nat>, days: nat, entries: nat) {
    && |d| == Min(entries, days) && SumTo(d, |d|) == days
    && (forall i | 0 <= i < |d| - 1 :: d[i] == d[0])
    && (|d| > 0 ==> 1 <= d[0] <= d[|d| - 1] < d[0] + |d|)
  }

  /** `c` counts `rate` for each of the days of `d`. */
  predicate IsRated(c: seq<nat>, d: seq<nat>, rate: nat) {
    |c| == |d| && forall i | 0 <= i < |d| :: c[i] == rate * d[i]
  }

  predicate IsUsageTable(es: seq<Entry>, req: Request, daily: nat) {
    && NamesOf(es) == ["Days", "Volume Turnover", "Volume Attach/Detach", "Disk Usage"]
    && IsDayColumn(es[0].points, req.days, req.tableEntries)
    && IsRated(es[1].points, es[0].points, req.turnover)
    && IsRated(es[2].points, es[0].points, req.cycles)
    && IsRated(es[3].points, es[0].points, daily)
  }

  /** What one day costs, from the averages of the simulated run. */
  function Daily(req: Request, stats: RunStats, created: nat, modified: nat): nat
    requires created >= 1 && modified >= 1
  {
    stats.modification / modified * req.cycles + (stats.allocation + stats.cleanup) / created * req.turnover
  }

  /** `n` fits `whole` times into `total`. */
  predicate Fits(n: nat, total: nat, whole: nat) {
    whole * n <= total < (whole + 1) * n
  }

  predicate FromAverages(
    daily: nat, req: Request, stats: RunStats, created: nat, modified: nat, perMod: nat, perVol: nat)
  {
    && Fits(modified, stats.modification, perMod)
    && Fits(created, stats.allocation + stats.cleanup, perVol)
    && daily == perMod * req.cycles + perVol * req.turnover
  }

  /**
   The daily use is that of one modification times the daily cycles and that of
   one volume, from its creation to its cleanup, times the daily turnover.
   */
  lemma DailyIsAverages(req: Request, stats: RunStats, created: nat, modified: nat)
    requires created >= 1 && modified >= 1
    ensures exists perMod: nat, perVol: nat ::
              FromAverages(Daily(req, stats, created, modified), req, stats, created, modified, perMod, perVol)
  {
    FitsQuotient(modified, stats.modification);
    FitsQuotient(created, stats.allocation + stats.cleanup);
    var perMod, perVol := stats.modification / modified, (stats.allocation + stats.cleanup) / created;
    Averages(Daily(req, stats, created, modified), req, stats, created, modified, perMod, perVol);
  }

  lemma Averages(daily: nat, req: Request, stats: RunStats, created: nat, modified: nat, perMod: nat, perVol: nat)
    requires Fits(modified, stats.modification, perMod) && Fits(created, stats.allocation + stats.cleanup, perVol)
    requires daily == perMod * req.cycles + perVol * req.turnover
    ensures FromAverages(daily, req, stats, created, modified, perMod, perVol)
  {
  }

  lemma FitsQuotient(n: nat, total: nat)
    requires n >= 1
    ensures Fits(n, total, total / n)
  {
    assert total == total / n * n + total % n;
    assert (total / n + 1) * n == total / n * n + n;
  }

  /** No other number of times fits. */
  lemma FitsOnce(n: nat, total: nat, a: nat, b: nat)
    requires Fits(n, total, a) && Fits(n, total, b)
    ensures a == b
  {
    assert a < b ==> (a + 1) * n <= b * n;
    assert b < a ==> (b + 1) * n <= a * n;
  }

  function Repeated(v: nat, n: nat): (r: seq<nat>)
    ensures |r| == n && forall i | 0 <= i < n :: r[i] == v
  {
    seq(n, _ => v)
  }

  lemma {:induction false} SumEqual(s: seq<nat>, v: nat, n: nat)
    requires n <= |s| && forall i | 0 <= i < n :: s[i] == v
    ensures SumTo(s, n) == v * n
  {
    if n > 0 {
      SumEqual(s, v, n - 1);
      assert v * n == v * (n - 1) + v;
    }
  }

  lemma {:induction false} SumRated(c: seq<nat>, d: seq<nat>, rate: nat, n: nat)
    requires n <= |d| && IsRated(c, d, rate)
    ensures SumTo(c, n) == rate * SumTo(d, n)
  {
    if n > 0 {
      SumRated(c, d, rate, n - 1);
      assert rate * (SumTo(d, n - 1) + d[n - 1]) == rate * SumTo(d, n - 1) + rate * d[n - 1];
    }
  }

  /** At least one day goes in every row, and less than one more row is left over. */
  lemma DaysPerRow(days: nat, rows: nat)
    requires 1 <= rows <= days
    ensures days / rows >= 1 && days / rows * rows + days % rows == days && days % rows < rows
    ensures days / rows + days % rows <= days
  {
    var q, rest := days / rows, days % rows;
    assert days == q * rows + rest;
    assert q == 0 ==> q * rows == 0;
    MulMono(q, 1, rows);
  }

  lemma MulMono(k: nat, a: nat, b: nat)
    requires a <= b
    ensures k * a <= k * b
  {
  }

  /** The days of the longest row, which is the last. */
  function LongestRow(req: Request): nat {
    var rows := Min(req.tableEntries, req.days);
    req.days / rows + req.days % rows
  }

  /** Every number formed on the way to the total fits a word. */
  predicate TotalFits(req: Request, stats: RunStats, created: nat, modified: nat)
    requires created >= 1 && modified >= 1
  {
    && stats.modification / modified * req.cycles <= U64_MAX
    && (stats.allocation + stats.cleanup) / created * req.turnover <= U64_MAX
    && Daily(req, stats, created, modified) <= U64_MAX
    && Daily(req, stats, created, modified) * req.days <= U64_MAX
  }

  /** Every number of the table fits a word. */
  predicate TableFits(req: Request, daily: nat) {
    req.turnover * LongestRow(req) <= U64_MAX && req.cycles * LongestRow(req) <= U64_MAX
    && daily * LongestRow(req) <= U64_MAX
  }

  /** The panic on the way to the total, if any, the first in the order of the source. */
  function TotalFault(req: Request, stats: RunStats, created: nat, modified: nat): Option<UsageError> {
    if stats.allocation + stats.cleanup > U64_MAX then Some(Overflow)
    else if created == 0 || modified == 0 then Some(DivideByZero)
    else if !TotalFits(req, stats, created, modified) then Some(Overflow)
    else None
  }

  /** The daily use and its total, from the use of one modification and of one volume. */
  method DailyAndTotal(usagePerMod: nat, usagePerVol: nat, req: Request) returns (r: Option<(nat, nat)>)
    ensures var mods, vols := usagePerMod * req.cycles, usagePerVol * req.turnover;
            && (r.Some? <==> mods <= U64_MAX && vols <= U64_MAX && mods + vols <= U64_MAX
                             && (mods + vols) * req.days <= U64_MAX)
            && (r.Some? ==> r.value == (mods + vols, (mods + vols) * req.days))
  {
    var mods, vols := usagePerMod * req.cycles, usagePerVol * req.turnover;
    if mods > U64_MAX || vols > U64_MAX || mods + vols > U64_MAX {
      return None;
    }
    var daily := mods + vols;
    var total := daily * req.days;
    return if total > U64_MAX then None else Some((daily, total));
  }

  /** As there is at least one day, it is enough that the total fits. */
  lemma TotalFitsIff(req: Request, stats: RunStats, created: nat, modified: nat)
    requires created >= 1 && modified >= 1
    ensures TotalFits(req, stats, created, modified) <==> Daily(req, stats, created, modified) * req.days <= U64_MAX
  {
    MulMono(Daily(req, stats, created, modified), 1, req.days);
  }

  /** What goes wrong: a sum of growths over the largest word, then a zero divisor, then a total that large. */
  lemma FaultIff(req: Request, stats: RunStats, created: nat, modified: nat)
    ensures TotalFault(req, stats, created, modified) == Some(DivideByZero) <==>
              stats.allocation + stats.cleanup <= U64_MAX && (created == 0 || modified == 0)
    ensures TotalFault(req, stats, created, modified) == Some(Overflow) <==>
              || stats.allocation + stats.cleanup > U64_MAX
              || (created > 0 && modified > 0 && Daily(req, stats, created, modified) * req.days > U64_MAX)
    ensures TotalFault(req, stats, created, modified) != Some(Underflow)
  {
    if created > 0 && modified > 0 {
      TotalFitsIff(req, stats, created, modified);
    }
  }

  method TotalUsage(req: Request, stats: RunStats, created: nat, modified: nat)
      returns (r: Result<(nat, nat), UsageError>)
    ensures r.Err? <==> TotalFault(req, stats, created, modified).Some?
    ensures r.Err? ==> TotalFault(req, stats, created, modified) == Some(r.error)
    ensures r.Ok? ==> created >= 1 && modified >= 1 && r.value.0 == Daily(req, stats, created, modified)
    ensures r.Ok? ==> exists perMod: nat, perVol: nat ::
                        FromAverages(r.value.0, req, stats, created, modified, perMod, perVol)
    ensures r.Ok? ==> r.value.1 == r.value.0 * req.days <= U64_MAX
  {
    if stats.allocation + stats.cleanup > U64_MAX {
      return Err(Overflow);
    }
    if created == 0 || modified == 0 {
      return Err(DivideByZero);
    }
    var usagePerVol := (stats.allocation + stats.cleanup) / created;
    var usagePerMod := stats.modification / modified;
    DailyIsAverages(req, stats, created, modified);
    var usage := DailyAndTotal(usagePerMod, usagePerVol, req);
    return if usage.None? then Err(Overflow) else Ok(usage.value);
  }

  /** The total and, unless only that is wanted, the table. */
  method Extrapolate(req: Request, stats: RunStats, created: nat, modified: nat)
      returns (r: Result<(nat, seq<Entry>), UsageError>)
    ensures r.Err? && TotalFault(req, stats, created, modified).Some? ==>
              TotalFault(req, stats, created, modified) == Some(r.error)
    ensures r.Ok? ==> created >= 1 && modified >= 1
    ensures r.Err? <==>
              || TotalFault(req, stats, created, modified).Some?
              || (!req.usageOnly && !TableFits(req, Daily(req, stats, created, modified)))
    ensures r.Ok? ==> r.value.0 == Daily(req, stats, created, modified) * req.days <= U64_MAX
    ensures r.Ok? && req.usageOnly ==> r.value.1 == []
    ensures r.Ok? && !req.usageOnly ==> IsUsageTable(r.value.1, req, Daily(req, stats, created, modified))
  {
    var usage := TotalUsage(req, stats, created, modified);
    if usage.Err? {
      return Err(usage.error);
    }
    var (daily, total) := usage.value;
    if req.usageOnly {
      return Ok((total, []));
    }
    var samples := Table(req, daily);
    return if samples.None? then Err(Overflow) else Ok((total, samples.value));
  }

  lemma EvenDays(v: nat, rows: nat)
    requires 1 <= v && 1 <= rows
    ensures SumTo(Repeated(v, rows), rows) == v * rows
  {
    SumEqual(Repeated(v, rows), v, rows);
  }

  lemma UnevenDays(v: nat, rows: nat, last: nat)
    requires 1 <= rows
    ensures SumTo(Repeated(v, rows - 1) + [last], rows) == v * (rows - 1) + last
  {
    SumEqual(Repeated(v, rows - 1) + [last], v, rows - 1);
  }

  lemma RatedRepeat(v: nat, n: nat, rate: nat, c: nat)
    requires c == rate * v
    ensures IsRated(Repeated(c, n), Repeated(v, n), rate)
  {
  }

  lemma RatedPush(c: seq<nat>, d: seq<nat>, rate: nat, x: nat, y: nat)
    requires IsRated(c, d, rate) && y == rate * x
    ensures IsRated(c + [y], d + [x], rate)
  {
  }

  /** A day column is determined by the days and the entries. */
  lemma DayColumnUnique(d: seq<nat>, e: seq<nat>, days: nat, entries: nat)
    requires 1 <= days && 1 <= entries && IsDayColumn(d, days, entries) && IsDayColumn(e, days, entries)
    ensures d == e
  {
    var m := |d|;
    SumEqual(d, d[0], m - 1);
    SumEqual(e, e[0], m - 1);
    QuotientUnique(d[0], e[0], m, d[m - 1], e[m - 1], days);
    assert forall i | 0 <= i < m - 1 :: d[i] == d[0] == e[0] == e[i];
  }

  lemma QuotientUnique(v: nat, w: nat, m: nat, x: nat, y: nat, days: nat)
    requires m >= 1 && v <= x < v + m && w <= y < w + m
    requires v * (m - 1) + x == days == w * (m - 1) + y
    ensures v == w && x == y
  {
    assert v * (m - 1) == v * m - v && w * (m - 1) == w * m - w;
    assert v < w ==> (v + 1) * m <= w * m;
    assert w < v ==> (w + 1) * m <= v * m;
  }

  /** Splits the days: `n` rows of `v`, and the length of a last longer row, zero when there is none. */
  method DayColumn(req: Request) returns (v: nat, n: nat, extra: nat)
    ensures n + (if extra > 0 then 1 else 0) == Min(req.tableEntries, req.days)
    ensures IsDayColumn(if extra > 0 then Repeated(v, n) + [extra] else Repeated(v, n), req.days, req.tableEntries)
    ensures v <= LongestRow(req) == if extra > 0 then extra else v
  {
    n := Min(req.tableEntries, req.days);
    ghost var rows := n;
    v := req.days / n;
    DaysPerRow(req.days, n);
    extra := req.days - v * n;
    EvenDays(v, rows);
    if extra > 0 {
      n := n - 1;
      extra := extra + v;
      UnevenDays(v, rows, extra);
      assert v * (rows - 1) == v * rows - v;
    }
  }

  /** The four columns; None stands for the panic of a product that overflows. */
  method Table(req: Request, daily: nat) returns (r: Option<seq<Entry>>)
    ensures r.Some? <==> TableFits(req, daily)
    ensures r.Some? ==> IsUsageTable(r.value, req, daily)
  {
    var daysEntry, maxEntries, extraDays := DayColumn(req);
    var days := Repeated(daysEntry, maxEntries);
    var turnover := Column(days, daysEntry, maxEntries, extraDays, req.turnover);
    var mods := Column(days, daysEntry, maxEntries, extraDays, req.cycles);
    var dailyUsage := Column(days, daysEntry, maxEntries, extraDays, daily);
    if turnover.None? || mods.None? || dailyUsage.None? {
      return None;
    }
    if extraDays > 0 {
      days := days + [extraDays];
    }
    var es := [Entry("Days", days), Entry("Volume Turnover", turnover.value),
               Entry("Volume Attach/Detach", mods.value), Entry("Disk Usage", dailyUsage.value)];
    assert NamesOf(es) == ["Days", "Volume Turnover", "Volume Attach/Detach", "Disk Usage"];
    return Some(es);
  }

  /** One more column of the table, at a fixed rate a day, unless a row of it overflows. */
  method Column(days: seq<nat>, daysEntry: nat, maxEntries: nat, extraDays: nat, rate: nat)
      returns (c: Option<seq<nat>>)
    requires days == Repeated(daysEntry, maxEntries) && (extraDays > 0 ==> daysEntry <= extraDays)
    ensures c.Some? <==> rate * (if extraDays > 0 then extraDays else daysEntry) <= U64_MAX
    ensures c.Some? ==> IsRated(c.value, if extraDays > 0 then days + [extraDays] else days, rate)
  {
    var each, last := rate * daysEntry, rate * extraDays;
    if extraDays > 0 {
      MulMono(rate, daysEntry, extraDays);
    }
    if each > U64_MAX || (extraDays > 0 && last > U64_MAX) {
      return None;
    }
    var points := Repeated(each, maxEntries);
    RatedRepeat(daysEntry, maxEntries, rate, each);
    if extraDays > 0 {
      RatedPush(points, days, rate, extraDays, last);
      points := points + [last];
    }
    return Some(points);
  }

  /** Every column of the table sums to its total over the requested days. */
  lemma ColumnsSumToTotals(es: seq<Entry>, req: Request, daily: nat)
    requires IsUsageTable(es, req, daily)
    ensures |es| == 4 && forall c | 0 <= c < 4 :: |es[c].points| == Min(req.tableEntries, req.days)
    ensures SumTo(es[0].points, |es[0].points|) == req.days
    ensures SumTo(es[1].points, |es[1].points|) == req.turnover * req.days
    ensures SumTo(es[2].points, |es[2].points|) == req.cycles * req.days
    ensures SumTo(es[3].points, |es[3].points|) == daily * req.days
  {
    assert |NamesOf(es)| == 4;
    var d := es[0].points;
    SumRated(es[1].points, d, req.turnover, |d|);
    SumRated(es[2].points, d, req.cycles, |d|);
    SumRated(es[3].points, d, daily, |d|);
  }

  /** The table overflows no more than its totals do. */
  lemma TableWithinTotals(req: Request, daily: nat)
    ensures LongestRow(req) <= req.days
    ensures req.turnover * req.days <= U64_MAX && req.cycles * req.days <= U64_MAX && daily * req.days <= U64_MAX ==>
              TableFits(req, daily)
  {
    DaysPerRow(req.days, Min(req.tableEntries, req.days));
    var longest := LongestRow(req);
    MulMono(req.turnover, longest, req.days);
    MulMono(req.cycles, longest, req.days);
    MulMono(daily, longest, req.days);
  }

  /** The rows printed for one cluster: their number, and a last row that shows all four totals. */
  method ResultRows(req: Request, stats: RunStats, created: nat, modified: nat)
      returns (r: Result<(nat, seq<seq<nat>>), UsageError>)
    ensures r.Err? <==>
              || TotalFault(req, stats, created, modified).Some?
              || (!req.usageOnly && (req.turnover * req.days > U64_MAX || req.cycles * req.days > U64_MAX))
    ensures r.Ok? && req.usageOnly ==> r.value.1 == []
    ensures r.Ok? && !req.usageOnly ==>
              && |r.value.1| == Min(req.tableEntries, req.days) > 0
              && r.value.1[|r.value.1| - 1] ==
                   [req.days, req.turnover * req.days, req.cycles * req.days, r.value.0]
              && forall i, c: nat | 0 <= i < |r.value.1| && c < 4 ::
                   |r.value.1[i]| == 4 && r.value.1[i][c] <= r.value.1[|r.value.1| - 1][c]
  {
    var result := Extrapolate(req, stats, created, modified);
    if result.Err? {
      if created > 0 && modified > 0 {
        TableWithinTotals(req, Daily(req, stats, created, modified));
      }
      return Err(result.error);
    }
    var es := result.value.1;
    var rows := Rows(es);
    if !req.usageOnly {
      ColumnsSumToTotals(es, req, Daily(req, stats, created, modified));
    }
    if rows.None? {
      return Err(Overflow);
    }
    if !req.usageOnly {
      assert !AllEmpty(es) by { assert es[0].points != []; }
      LastRowIsTotals(es, rows.value);
    }
    return Ok((result.value.0, rows.value));
  }
}
