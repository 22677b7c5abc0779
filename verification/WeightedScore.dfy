/** The weighted scorer: two candidates graded against each other under a list of weighted criteria. */
module WeightedScore {
  import opened Wrappers

  const U64_MAX: nat := 0xFFFF_FFFF_FFFF_FFFF

  type U64 = n: nat | n <= U64_MAX

  /** Weights and scores, wrapped by the source in a type that keeps them from 0 to 100. */
  type Ranged = n: nat | n <= 100

  /** Overflow stands for the panic of checked `u64` arithmetic. */
  datatype ScoreError = Bounds | Heavy(sum: nat) | Overflow

  /** The checked constructor tests for a range that ends before 100. */
  function RangedNew(value: U64): Result<Ranged, ScoreError> {
    if 0 <= value < 100 then Ok(value) else Err(Bounds)
  }

  /** The constant constructor; None when it does not compile. */
  function RangedConst(value: U64): Option<Ranged> {
    if value <= 100 then Some(value) else None
  }

  datatype Grading = Higher | Lower

  /** One call of `weigh`: a criterion's weight, how it grades, and the raw value of each candidate. */
  datatype Weighing = Weighing(weight: Ranged, grading: Grading, v1: U64, v2: U64)

  // ---- Grading one pair of values

  function Percent(v: nat, total: nat, g: Grading): nat
    requires v <= total
  {
    if total == 0 then 50
    else match g
      case Higher => v * 100 / total
      case Lower => (total - v) * 100 / total
  }

  function NewRanged(n: nat): Ranged {
    if n < 100 then n else 100
  }

  /** The product that `percent` forms fits a word. */
  predicate PercentFits(v: nat, total: nat, g: Grading)
    requires v <= total
  {
    total == 0 || (match g case Higher => v * 100 <= U64_MAX case Lower => (total - v) * 100 <= U64_MAX)
  }

  function DualGrade(a: U64, b: U64, g: Grading): Result<(Ranged, Ranged), ScoreError> {
    var total := a + b;
    if total > U64_MAX || !PercentFits(a, total, g) || !PercentFits(b, total, g) then Err(Overflow)
    else Ok((NewRanged(Percent(a, total, g)), NewRanged(Percent(b, total, g))))
  }

  /** The part of a hundred that `x` has of `x + y`, an even half of nothing. */
  function Share(x: nat, y: nat): nat {
    if x + y == 0 then 50 else x * 100 / (x + y)
  }

  function Grade(w: Weighing, first: bool): nat {
    if first == w.grading.Higher? then Share(w.v1, w.v2) else Share(w.v2, w.v1)
  }

  /**
   The graded pair is each candidate's share, its rival's when lower is better.
   Grading overflows exactly when some value is over a hundredth of the largest
   word, although the sum is formed first.
   */
  lemma DualGradeIsShare(w: Weighing)
    ensures DualGrade(w.v1, w.v2, w.grading).Err? <==> (w.v1 * 100 > U64_MAX || w.v2 * 100 > U64_MAX)
    ensures DualGrade(w.v1, w.v2, w.grading).Ok? ==>
              DualGrade(w.v1, w.v2, w.grading).value == (Grade(w, true), Grade(w, false))
  {
    SharesSum(w.v1, w.v2);
    assert w.v1 + w.v2 - w.v1 == w.v2;
  }

  lemma SharesSum(x: nat, y: nat)
    ensures Share(x, y) + Share(y, x) == 100 || Share(x, y) + Share(y, x) == 99
    ensures Share(x, y) + Share(y, x) == 100 <==> (x + y == 0 || (x * 100) % (x + y) == 0)
  {
    var t := x + y;
    if t != 0 {
      var p, q, r, s := x * 100 / t, y * 100 / t, x * 100 % t, y * 100 % t;
      assert x * 100 == t * p + r && y * 100 == t * q + s;
      assert t * 100 == t * (p + q) + (r + s);
      Between(t, p + q, r + s);
    }
  }

  /** A hundred times `t`, split into whole `t`s and less than two of them over. */
  lemma Between(t: nat, whole: nat, over: nat)
    requires t > 0 && t * 100 == t * whole + over && over < 2 * t
    ensures whole == 100 && over == 0 <==> !(whole == 99 && over == t)
  {
    assert whole >= 101 ==> t * whole >= t * 101;
    assert whole <= 98 ==> t * whole <= t * 98;
  }

  /** The two percentages lose at most one point between them, and none exactly when the split is whole. */
  lemma GradesSum(w: Weighing)
    ensures Grade(w, true) + Grade(w, false) == 100 || Grade(w, true) + Grade(w, false) == 99
    ensures Grade(w, true) + Grade(w, false) == 100 <==> (w.v1 + w.v2 == 0 || (w.v1 * 100) % (w.v1 + w.v2) == 0)
  {
    SharesSum(w.v1, w.v2);
    SharesSum(w.v2, w.v1);
    assert Grade(w, true) + Grade(w, false) == Share(w.v1, w.v2) + Share(w.v2, w.v1);
  }

  /** A grade is the largest whole percentage within the share it stands for; two zeros share evenly. */
  lemma GradeIsFloor(w: Weighing, first: bool)
    ensures var mine, other := if first then w.v1 else w.v2, if first then w.v2 else w.v1;
            var part, total := if w.grading.Higher? then mine else other, w.v1 + w.v2;
            if total == 0 then Grade(w, first) == 50
            else Grade(w, first) * total <= 100 * part < (Grade(w, first) + 1) * total
  {
    ShareIsFloor(w.v1, w.v2);
    ShareIsFloor(w.v2, w.v1);
  }

  lemma ShareIsFloor(x: nat, y: nat)
    ensures x + y > 0 ==> Share(x, y) * (x + y) <= 100 * x < (Share(x, y) + 1) * (x + y)
    ensures x + y == 0 ==> Share(x, y) == 50
  {
    if x + y > 0 {
      var t, q, r := x + y, x * 100 / (x + y), x * 100 % (x + y);
      assert x * 100 == t * q + r;
      assert (q + 1) * t == t * q + t;
    }
  }

  // ---- Shares move with the values

  lemma MulLe(a: nat, b: nat, k: nat)
    requires a <= b
    ensures a * k <= b * k
  {
  }

  lemma MulCancel(a: nat, b: nat, k: nat)
    requires k > 0 && a * k <= b * k
    ensures a <= b
  {
    assert (b + 1) * k == b * k + k;
    if b < a {
      MulLe(b + 1, a, k);
    }
  }

  /** A smaller fraction rounds down to no more. */
  lemma FloorLe(a: nat, b: nat, c: nat, d: nat)
    requires b > 0 && d > 0 && a * d <= c * b
    ensures a / b <= c / d
  {
    var q := a / b;
    assert q * b <= a;
    MulLe(q * b, a, d);
    assert q * d * b == q * b * d;
    MulCancel(q * d, c, b);
    var p := c / d;
    assert c < (p + 1) * d;
    if p < q {
      MulLe(p + 1, q, d);
    }
  }

  lemma ShareGrows(x: nat, x': nat, y: nat)
    requires x <= x'
    ensures Share(x, y) <= Share(x', y)
  {
    if x + y > 0 {
      MulLe(x, x', y);
      assert x * 100 * (x' + y) == 100 * (x * x') + 100 * (x * y);
      assert x' * 100 * (x + y) == 100 * (x * x') + 100 * (x' * y);
      FloorLe(x * 100, x + y, x' * 100, x' + y);
    } else if x' > 0 {
      assert y == 0 && x' * 100 / x' == 100;
    }
  }

  lemma ShareShrinks(x: nat, y: nat, y': nat)
    requires y <= y'
    ensures Share(x, y') <= Share(x, y)
  {
    if x + y > 0 {
      assert x * 100 * (x + y) <= x * 100 * (x + y') by { MulLe(x + y, x + y', x * 100); }
      FloorLe(x * 100, x + y', x * 100, x + y);
    } else if y' > 0 {
      assert 0 * 100 / y' == 0;
    }
  }

  lemma ShareOrder(x: nat, y: nat)
    requires y <= x
    ensures Share(y, x) <= Share(x, y)
  {
    if x + y > 0 {
      MulLe(y * 100, x * 100, x + y);
      FloorLe(y * 100, x + y, x * 100, x + y);
    }
  }

  // ---- Weighing a list of criteria

  function Weights(ws: seq<Weighing>): nat {
    if ws == [] then 0 else Weights(ws[..|ws| - 1]) + ws[|ws| - 1].weight
  }

  function Accrued(ws: seq<Weighing>, first: bool): nat {
    if ws == [] then 0
    else Accrued(ws[..|ws| - 1], first) + ws[|ws| - 1].weight * Grade(ws[|ws| - 1], first)
  }

  function SingleScore(weights: nat, score: nat): Result<nat, ScoreError> {
    if weights > 100 then Err(Heavy(weights)) else Ok(score / 100)
  }

  /** The final scores of both candidates, or why there are none. */
  function FinalScores(ws: seq<Weighing>): Result<(nat, nat), ScoreError> {
    var s1, s2 := SingleScore(Weights(ws), Accrued(ws, true)), SingleScore(Weights(ws), Accrued(ws, false));
    if s1.Err? then Err(s1.error) else if s2.Err? then Err(s2.error) else Ok((s1.value, s2.value))
  }

  lemma WeightIsShared(k: nat, a: nat, b: nat)
    requires 99 <= a + b <= 100
    ensures 99 * k <= k * a + k * b <= 100 * k
  {
    if a + b == 100 {
      assert k * a + k * (100 - a) == 100 * k;
    } else {
      assert k * a + k * (99 - a) == 99 * k;
    }
  }

  /** The two accruals share the whole weight, up to one percent of it. */
  lemma {:induction false} AccruedSum(ws: seq<Weighing>)
    ensures 99 * Weights(ws) <= Accrued(ws, true) + Accrued(ws, false) <= 100 * Weights(ws)
  {
    if ws != [] {
      var w := ws[|ws| - 1];
      AccruedSum(ws[..|ws| - 1]);
      GradesSum(w);
      WeightIsShared(w.weight, Grade(w, true), Grade(w, false));
    }
  }

  /**
   A list of weighings is scored exactly when its weights sum to at most 100,
   and then both scores are within 0 to 100 although nothing checks them.
   */
  lemma FinalScoresInRange(ws: seq<Weighing>)
    ensures FinalScores(ws).Ok? <==> Weights(ws) <= 100
    ensures FinalScores(ws).Err? ==> FinalScores(ws).error == Heavy(Weights(ws))
    ensures FinalScores(ws).Ok? ==> FinalScores(ws).value.0 + FinalScores(ws).value.1 <= Weights(ws)
  {
    AccruedSum(ws);
  }

  /** With the weights used up, rounding costs at most two points. */
  lemma FullWeightsScoreFully(ws: seq<Weighing>)
    requires Weights(ws) == 100
    ensures FinalScores(ws).Ok?
    ensures 98 <= FinalScores(ws).value.0 + FinalScores(ws).value.1 <= 100
  {
    AccruedSum(ws);
  }

  /**
   The two constructors of a ranged value disagree exactly at 100, which the
   checked one refuses although the scorer itself can give it.
   */
  lemma RangedConstructorsDisagree(value: U64)
    ensures RangedNew(value).Ok? != RangedConst(value).Some? <==> value == 100
    ensures FinalScores([Weighing(100, Higher, 1, 0)]) == Ok((100, 0))
  {
    var ws := [Weighing(100, Higher, 1, 0)];
    assert ws[..0] == [] && Weights(ws) == 100;
    assert Grade(ws[0], true) == 100 && Grade(ws[0], false) == 0;
    assert Accrued(ws, true) == Accrued(ws[..0], true) + 100 * 100;
    assert Accrued(ws, false) == Accrued(ws[..0], false) + 100 * 0;
  }

  /** Each final score is the whole hundredths of what was accrued. */
  lemma FinalScoresRoundDown(ws: seq<Weighing>)
    requires Weights(ws) <= 100
    ensures FinalScores(ws).Ok?
    ensures 100 * FinalScores(ws).value.0 <= Accrued(ws, true) < 100 * FinalScores(ws).value.0 + 100
    ensures 100 * FinalScores(ws).value.1 <= Accrued(ws, false) < 100 * FinalScores(ws).value.1 + 100
  {
  }

  // ---- Against the exact weighted mean

  /** The share of a candidate under one criterion, without rounding. */
  ghost function Exact(w: Weighing, first: bool): real {
    var mine, other := if first then w.v1 else w.v2, if first then w.v2 else w.v1;
    var part, total := if w.grading.Higher? then mine else other, w.v1 + w.v2;
    if total == 0 then 50.0 else 100.0 * part as real / total as real
  }

  /** The exact shares, each times its weight. */
  ghost function ExactParts(ws: seq<Weighing>, first: bool): (xs: seq<real>)
    ensures |xs| == |ws| && forall i | 0 <= i < |ws| :: xs[i] == ws[i].weight as real * Exact(ws[i], first)
  {
    seq(|ws|, i requires 0 <= i < |ws| => ws[i].weight as real * Exact(ws[i], first))
  }

  ghost function SumOf(xs: seq<real>): real {
    if xs == [] then 0.0 else SumOf(xs[..|xs| - 1]) + xs[|xs| - 1]
  }

  /** `x` is at least `a`, and exceeds it by at most `slack`. */
  predicate Near(a: nat, x: real, slack: nat) {
    a as real <= x <= a as real + slack as real
  }

  lemma ExactNearGrade(w: Weighing, first: bool)
    ensures Grade(w, first) as real <= Exact(w, first) < Grade(w, first) as real + 1.0
  {
    GradeIsFloor(w, first);
    var mine, other := if first then w.v1 else w.v2, if first then w.v2 else w.v1;
    var part, total := if w.grading.Higher? then mine else other, w.v1 + w.v2;
    if total > 0 {
      QuotientBounds(Grade(w, first), part, total);
    }
  }

  lemma QuotientBounds(g: nat, part: nat, total: nat)
    requires total > 0 && g * total <= 100 * part < (g + 1) * total
    ensures g as real <= 100.0 * part as real / total as real < g as real + 1.0
  {
    var q, t := 100.0 * part as real / total as real, total as real;
    assert q * t == 100.0 * part as real;
    RealProduct(g, total, g * total);
    RealProduct(g + 1, total, (g + 1) * total);
    RealCancel(g as real, q, t);
    RealCancelLess(q, (g + 1) as real, t);
  }

  lemma RealCancel(a: real, b: real, t: real)
    requires t > 0.0 && a * t <= b * t
    ensures a <= b
  {
  }

  lemma RealCancelLess(a: real, b: real, t: real)
    requires t > 0.0 && a * t < b * t
    ensures a < b
  {
  }

  lemma WeighBounds(k: nat, g: nat, e: real, p: nat, x: real)
    requires g as real <= e < g as real + 1.0 && p == k * g && x == k as real * e
    ensures Near(p, x, k)
  {
    RealProduct(k, g, p);
    RealWeigh(k as real, g as real, e, p as real, x);
  }

  lemma RealWeigh(k: real, g: real, e: real, p: real, x: real)
    requires 0.0 <= k && g <= e <= g + 1.0 && p == k * g && x == k * e
    ensures p <= x <= p + k
  {
    var y := k * (g + 1.0);
    RealMul(g, e, k, p, x);
    RealMul(e, g + 1.0, k, x, y);
    assert y == p + k;
  }

  lemma {:induction false} RealProduct(k: nat, g: nat, p: nat)
    requires p == k * g
    ensures p as real == k as real * g as real
  {
    if k > 0 {
      assert p - g == (k - 1) * g;
      RealProduct(k - 1, g, p - g);
      RealSuccessor((k - 1) as real, g as real);
    }
  }

  lemma RealSuccessor(k: real, g: real)
    ensures (k + 1.0) * g == k * g + g
  {
  }

  lemma RealMul(a: real, b: real, k: real, x: real, y: real)
    requires a <= b && 0.0 <= k && x == k * a && y == k * b
    ensures x <= y
  {
    assert y - x == k * (b - a);
  }

  lemma WeighedNearExact(w: Weighing, first: bool)
    ensures Near(w.weight * Grade(w, first), w.weight as real * Exact(w, first), w.weight)
  {
    ExactNearGrade(w, first);
    WeighBounds(w.weight, Grade(w, first), Exact(w, first),
                w.weight * Grade(w, first), w.weight as real * Exact(w, first));
  }

  lemma NearAdds(a: nat, x: real, k: nat, b: nat, y: real, l: nat)
    requires Near(a, x, k) && Near(b, y, l)
    ensures Near(a + b, x + y, k + l)
  {
  }

  ghost predicate PartNear(w: Weighing, first: bool, x: real) {
    Near(w.weight * Grade(w, first), x, w.weight)
  }

  lemma {:induction false} AccruedNear(ws: seq<Weighing>, first: bool, xs: seq<real>)
    requires |xs| == |ws| && forall i | 0 <= i < |ws| :: PartNear(ws[i], first, xs[i])
    ensures Near(Accrued(ws, first), SumOf(xs), Weights(ws))
  {
    if ws != [] {
      var k := |ws| - 1;
      AccruedNear(ws[..k], first, xs[..k]);
      assert PartNear(ws[k], first, xs[k]);
      NearAdds(Accrued(ws[..k], first), SumOf(xs[..k]), Weights(ws[..k]),
               ws[k].weight * Grade(ws[k], first), xs[k], ws[k].weight);
    }
  }

  lemma ExactPartNear(ws: seq<Weighing>, first: bool, i: nat)
    requires i < |ws|
    ensures PartNear(ws[i], first, ExactParts(ws, first)[i])
  {
    WeighedNearExact(ws[i], first);
  }

  lemma AccruedNearExact(ws: seq<Weighing>, first: bool)
    ensures Near(Accrued(ws, first), SumOf(ExactParts(ws, first)), Weights(ws))
  {
    var xs := ExactParts(ws, first);
    forall i | 0 <= i < |ws| ensures PartNear(ws[i], first, xs[i]) {
      ExactPartNear(ws, first, i);
    }
    AccruedNear(ws, first, xs);
  }

  /** A score is never above the exact weighted mean, and less than two points below it. */
  lemma ScoreNearMean(ws: seq<Weighing>)
    requires Weights(ws) <= 100
    ensures FinalScores(ws).Ok?
    ensures var (s1, s2) := FinalScores(ws).value;
            && s1 as real <= SumOf(ExactParts(ws, true)) / 100.0 < s1 as real + 2.0
            && s2 as real <= SumOf(ExactParts(ws, false)) / 100.0 < s2 as real + 2.0
  {
    FinalScoresRoundDown(ws);
    AccruedNearExact(ws, true);
    AccruedNearExact(ws, false);
  }

  // ---- Comparing candidates and lists

  predicate AtLeastAsGood(w: Weighing) {
    match w.grading case Higher => w.v1 >= w.v2 case Lower => w.v1 <= w.v2
  }

  lemma {:induction false} AccruedDominance(ws: seq<Weighing>)
    requires forall w | w in ws :: AtLeastAsGood(w)
    ensures Accrued(ws, false) <= Accrued(ws, true)
  {
    if ws != [] {
      var w := ws[|ws| - 1];
      assert w in ws;
      assert forall x | x in ws[..|ws| - 1] :: x in ws;
      AccruedDominance(ws[..|ws| - 1]);
      ShareOrder(if w.grading.Higher? then w.v1 else w.v2, if w.grading.Higher? then w.v2 else w.v1);
      MulLe(Grade(w, false), Grade(w, true), w.weight);
    }
  }

  /** Under any criteria, a candidate at least as good on each of them never scores lower. */
  lemma Dominance(ws: seq<Weighing>)
    requires forall w | w in ws :: AtLeastAsGood(w)
    ensures FinalScores(ws).Ok? ==> FinalScores(ws).value.1 <= FinalScores(ws).value.0
  {
    AccruedDominance(ws);
  }

  function Swap(w: Weighing): Weighing {
    w.(v1 := w.v2, v2 := w.v1)
  }

  lemma {:induction false} AccruedSwap(ws: seq<Weighing>, ws': seq<Weighing>)
    requires |ws| == |ws'| && forall i | 0 <= i < |ws| :: ws'[i] == Swap(ws[i])
    ensures Weights(ws') == Weights(ws)
    ensures Accrued(ws', true) == Accrued(ws, false) && Accrued(ws', false) == Accrued(ws, true)
  {
    if ws != [] {
      AccruedSwap(ws[..|ws| - 1], ws'[..|ws| - 1]);
    }
  }

  /** Neither candidate is favoured by its place: swapping their values swaps their scores. */
  lemma SwapSymmetry(ws: seq<Weighing>, ws': seq<Weighing>)
    requires |ws| == |ws'| && forall i | 0 <= i < |ws| :: ws'[i] == Swap(ws[i])
    ensures FinalScores(ws).Ok? <==> FinalScores(ws').Ok?
    ensures FinalScores(ws).Err? ==> FinalScores(ws') == FinalScores(ws)
    ensures FinalScores(ws).Ok? ==> FinalScores(ws').value == (FinalScores(ws).value.1, FinalScores(ws).value.0)
  {
    AccruedSwap(ws, ws');
  }

  /** `w'` differs from `w` at most in a better value of the first candidate. */
  predicate Improves(w: Weighing, w': Weighing) {
    && w' == w.(v1 := w'.v1)
    && (match w.grading case Higher => w.v1 <= w'.v1 case Lower => w'.v1 <= w.v1)
  }

  lemma GradeImproves(w: Weighing, w': Weighing)
    requires Improves(w, w')
    ensures Grade(w, true) <= Grade(w', true) && Grade(w', false) <= Grade(w, false)
  {
    match w.grading
    case Higher =>
      ShareGrows(w.v1, w'.v1, w.v2);
      ShareShrinks(w.v2, w.v1, w'.v1);
    case Lower =>
      ShareGrows(w'.v1, w.v1, w.v2);
      ShareShrinks(w.v2, w'.v1, w.v1);
  }

  lemma {:induction false} AccruedImproves(ws: seq<Weighing>, ws': seq<Weighing>)
    requires |ws| == |ws'| && forall i | 0 <= i < |ws| :: Improves(ws[i], ws'[i])
    ensures Weights(ws') == Weights(ws)
    ensures Accrued(ws, true) <= Accrued(ws', true) && Accrued(ws', false) <= Accrued(ws, false)
  {
    if ws != [] {
      var w, w' := ws[|ws| - 1], ws'[|ws| - 1];
      AccruedImproves(ws[..|ws| - 1], ws'[..|ws| - 1]);
      assert Improves(w, w');
      GradeImproves(w, w');
      MulLe(Grade(w, true), Grade(w', true), w.weight);
      MulLe(Grade(w', false), Grade(w, false), w.weight);
    }
  }

  /** Better values never lower a candidate's own score and never raise its rival's. */
  lemma ImprovingHelps(ws: seq<Weighing>, ws': seq<Weighing>)
    requires |ws| == |ws'| && forall i | 0 <= i < |ws| :: Improves(ws[i], ws'[i])
    ensures FinalScores(ws).Ok? <==> FinalScores(ws').Ok?
    ensures FinalScores(ws).Ok? ==>
              && FinalScores(ws).value.0 <= FinalScores(ws').value.0
              && FinalScores(ws').value.1 <= FinalScores(ws).value.1
  {
    AccruedImproves(ws, ws');
  }

  // ---- The accumulators

  class WeightedScoreSingle {
    var accruedWeights: nat
    var accruedScore: nat

    /** No criterion adds more than a hundred times its weight, and both sums fit a word. */
    ghost predicate Valid()
      reads this
    {
      accruedScore <= 100 * accruedWeights && accruedScore <= U64_MAX && accruedWeights <= U64_MAX
    }

    constructor ()
      ensures Valid() && accruedWeights == 0 && accruedScore == 0
    {
      accruedWeights, accruedScore := 0, 0;
    }

    /** The sums are checked in source order: the score first, then the weights. */
    method WeighRef(weight: Ranged, score: Ranged) returns (r: Result<(), ScoreError>)
      requires Valid()
      modifies this
      ensures r.Ok? <==> old(accruedScore) + weight * score <= U64_MAX && old(accruedWeights) + weight <= U64_MAX
      ensures r.Ok? ==> Valid() && accruedScore == old(accruedScore) + weight * score
      ensures r.Ok? ==> accruedWeights == old(accruedWeights) + weight
      ensures r.Err? ==> r.error == Overflow
    {
      MulLe(score, 100, weight);
      if accruedScore + weight * score > U64_MAX {
        return Err(Overflow);
      }
      accruedScore := accruedScore + weight * score;
      if accruedWeights + weight > U64_MAX {
        return Err(Overflow);
      }
      accruedWeights := accruedWeights + weight;
      return Ok(());
    }

    /** Whatever was weighed, a score is never over a hundred, although it is built without a check. */
    method Score() returns (r: Result<nat, ScoreError>)
      requires Valid()
      ensures r == SingleScore(accruedWeights, accruedScore)
      ensures r.Ok? <==> accruedWeights <= 100
      ensures r.Err? ==> r.error == Heavy(accruedWeights)
      ensures r.Ok? ==> 100 * r.value <= accruedScore < 100 * r.value + 100 && r.value <= accruedWeights
    {
      if accruedWeights > 100 {
        return Err(Heavy(accruedWeights));
      }
      return Ok(accruedScore / 100);
    }
  }

  class DualValWeightedScore {
    const accruedScore1: WeightedScoreSingle
    const accruedScore2: WeightedScoreSingle
    /** What has been weighed so far, oldest first. */
    ghost var weighed: seq<Weighing>

    ghost predicate Valid()
      reads this, accruedScore1, accruedScore2
    {
      && accruedScore1 != accruedScore2 && accruedScore1.Valid() && accruedScore2.Valid()
      && accruedScore1.accruedWeights == accruedScore2.accruedWeights == Weights(weighed)
      && accruedScore1.accruedScore == Accrued(weighed, true)
      && accruedScore2.accruedScore == Accrued(weighed, false)
    }

    constructor ()
      ensures Valid() && weighed == [] && fresh(accruedScore1) && fresh(accruedScore2)
    {
      accruedScore1 := new WeightedScoreSingle();
      accruedScore2 := new WeightedScoreSingle();
      weighed := [];
    }

    /** Adds one graded criterion to both sides; what overflows is exactly what does not fit a word. */
    method Weigh(w: Weighing) returns (r: Result<(), ScoreError>)
      requires Valid()
      modifies this, accruedScore1, accruedScore2
      ensures r.Ok? ==> Valid() && weighed == old(weighed) + [w]
      ensures r.Err? ==> r.error == Overflow
      ensures r.Ok? <==>
                && w.v1 * 100 <= U64_MAX && w.v2 * 100 <= U64_MAX
                && Weights(old(weighed) + [w]) <= U64_MAX
                && Accrued(old(weighed) + [w], true) <= U64_MAX && Accrued(old(weighed) + [w], false) <= U64_MAX
    {
      ghost var ws := weighed + [w];
      assert ws[..|ws| - 1] == weighed;
      DualGradeIsShare(w);
      var graded := DualGrade(w.v1, w.v2, w.grading);
      if graded.Err? {
        return Err(graded.error);
      }
      r := accruedScore1.WeighRef(w.weight, graded.value.0);
      if r.Err? {
        return;
      }
      r := accruedScore2.WeighRef(w.weight, graded.value.1);
      if r.Ok? {
        weighed := ws;
      }
    }

    method Score() returns (r: Result<(nat, nat), ScoreError>)
      requires Valid()
      ensures r == FinalScores(weighed)
    {
      var s1 := accruedScore1.Score();
      if s1.Err? {
        return Err(s1.error);
      }
      var s2 := accruedScore2.Score();
      match s2
      case Err(e) => return Err(e);
      case Ok(score2) => return Ok((s1.value, score2));
    }
  }

  /** Overflow of the accumulators is out of reach of any list that fits a machine. */
  lemma {:induction false} AccumulatorsBounded(ws: seq<Weighing>)
    ensures Weights(ws) <= 100 * |ws|
    ensures Accrued(ws, true) + Accrued(ws, false) <= 10000 * |ws|
  {
    WeightsBounded(ws);
    AccruedSum(ws);
  }

  lemma {:induction false} WeightsBounded(ws: seq<Weighing>)
    ensures Weights(ws) <= 100 * |ws|
  {
    if ws != [] {
      WeightsBounded(ws[..|ws| - 1]);
    }
  }
}
