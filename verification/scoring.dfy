/**
 * The composite scorer (`calculate_scores` in scoring.py): validates the
 * weights, picks the group features present in the table, takes their
 * quantile-scaled values, inverts the "more is worse" ones, averages each
 * group, mixes the three group scores with the weights, applies the
 * liquidation and low-repayment overrides, rounds to a 0-100 score and
 * sorts by it.
 *
 * The quantile scaler itself (scikit-learn's `QuantileTransformer`, fitted
 * or loaded from disk) is outside the model: its output, one row of values
 * in [0, 1] per wallet and one column per selected feature, is an input.
 * `ScalerInput` says what it is fitted on.
 */
module Scoring {
  import opened Common
  import opened Sorting
  import opened Stats
  import Features
  import Loader

  // ---------------------------------------------------------------------
  // Feature groups

  datatype Group = Health | Trust | Risk

  /** The features of each group, in the order the scorer lists them. */
  function Members(g: Group): seq<string>
  {
    match g
    case Health => ["health_factor", "repayment_ratio", "log_net_collateral_flow"]
    case Trust => ["log_account_age_days", "log_unique_active_days", "log_median_tx_gap_hours"]
    case Risk => ["liquidation_count", "log_tx_freq_per_day", "log_usd_amount_std", "asset_diversity"]
  }

  /** The weight key of each group. */
  function WeightKey(g: Group): string
  {
    match g
    case Health => "health"
    case Trust => "trust"
    case Risk => "risk"
  }

  /** Every group feature, health first, then trust, then risk. */
  const AllFeatures: seq<string> := Members(Health) + Members(Trust) + Members(Risk)

  /** Features where a larger value means a worse borrower; their scaled value is inverted. */
  const NegFeatures: set<string> := {"liquidation_count", "log_tx_freq_per_day", "log_usd_amount_std"}

  const EverLiquidated: string := "ever_liquidated"
  const RepaymentRatio: string := "repayment_ratio"

  // ---------------------------------------------------------------------
  // Tables

  /** One wallet's row: its index label and its column values. */
  datatype Row = Row(wallet: string, values: map<string, real>)

  datatype Table = Table(columns: set<string>, rows: seq<Row>)

  /** Every row has a value in exactly the table's columns. */
  predicate Rectangular(t: Table) {
    forall i :: 0 <= i < |t.rows| ==> t.rows[i].values.Keys == t.columns
  }

  /** One scored row: the input row and the columns the scorer adds to it. */
  datatype ScoredRow = ScoredRow(row: Row, health: real, trust: real, risk: real, raw: real, score: int)

  datatype ScoreError =
    | InvalidWeights
    | NoFeatures
    | NoSamples
    | MissingColumn(name: string)

  // ---------------------------------------------------------------------
  // Weights

  type Weights = map<string, real>

  /** The tolerance on the weights' sum (1e-6). */
  const WeightTolerance: real := 0.000001

  /** Keys exactly health, trust and risk, summing to 1 within the tolerance. */
  predicate ValidWeights(w: Weights) {
    && w.Keys == {"health", "trust", "risk"}
    && -WeightTolerance <= w["health"] + w["trust"] + w["risk"] - 1.0 <= WeightTolerance
  }

  // ---------------------------------------------------------------------
  // Selecting features

  /** The names of `names` that are columns, in the order of `names`. */
  function Present(names: seq<string>, columns: set<string>): (r: seq<string>)
    ensures |r| <= |names|
    ensures forall f :: f in r <==> f in names && f in columns
  {
    if |names| == 0 then []
    else (if names[0] in columns then [names[0]] else []) + Present(names[1..], columns)
  }

  /** Names without repetition: no name appears at two positions. */
  predicate Distinct<T(==)>(s: seq<T>) {
    forall i, j :: 0 <= i < j < |s| ==> s[i] != s[j]
  }

  /**
   * From distinct names, `Present` keeps each selected name once and in the
   * order of `names`: a name listed earlier comes earlier in the result.
   */
  lemma {:induction false} PresentInOrder(names: seq<string>, columns: set<string>)
    requires Distinct(names)
    ensures var r := Present(names, columns);
            && Distinct(r)
            && forall i, j :: 0 <= i < j < |r| ==> Position(names, r[i]) < Position(names, r[j])
  {
    if |names| > 0 {
      DistinctTail(names);
      PresentInOrder(names[1..], columns);
      var rest := Present(names[1..], columns);
      var head: seq<string> := if names[0] in columns then [names[0]] else [];
      assert Present(names, columns) == head + rest;
      ShiftedPositions(names, rest);
      var pos := x => if x in names then Position(names, x) else -1;
      var tailPos := x => if x in names[1..] then Position(names[1..], x) else -1;
      assert pos(names[0]) == 0;
      PrependInOrder(names[0], head, rest, pos, tailPos);
      var r := head + rest;
      forall i, j | 0 <= i < j < |r| ensures Position(names, r[i]) < Position(names, r[j]) {
        assert pos(r[i]) < pos(r[j]);
      }
    }
  }

  /**
   * The first name, or nothing, followed by names of the tail in the tail's
   * order, is in the order of the whole: `pos` places the first name before
   * every other, and a tail name one place later than `tailPos` does.
   */
  lemma PrependInOrder<T>(first: T, head: seq<T>, rest: seq<T>, pos: T -> int, tailPos: T -> int)
    requires head == [] || head == [first]
    requires forall k :: 0 <= k < |rest| ==> pos(rest[k]) == 1 + tailPos(rest[k]) && tailPos(rest[k]) >= 0
    requires pos(first) == 0
    requires forall i, j :: 0 <= i < j < |rest| ==> tailPos(rest[i]) < tailPos(rest[j])
    ensures var r := head + rest;
            && Distinct(r)
            && forall i, j :: 0 <= i < j < |r| ==> pos(r[i]) < pos(r[j])
  {
    var r := head + rest;
    var h := |head|;
    forall i, j | 0 <= i < j < |r| ensures pos(r[i]) < pos(r[j]) {
      assert r[j] == rest[j - h];
      if i >= h {
        assert r[i] == rest[i - h];
      }
    }
  }

  /** Dropping the first name keeps the rest distinct. */
  lemma DistinctTail<T>(s: seq<T>)
    requires Distinct(s) && |s| > 0
    ensures Distinct(s[1..])
  {
    forall i, j | 0 <= i < j < |s| - 1 ensures s[1..][i] != s[1..][j] {
      assert s[1..][i] == s[i + 1] && s[1..][j] == s[j + 1];
    }
  }

  /** A name of the tail of distinct names is not the first one, and sits one place further in the whole. */
  lemma ShiftedPositions<T>(s: seq<T>, sub: seq<T>)
    requires Distinct(s) && |s| > 0
    requires forall x :: x in sub ==> x in s[1..]
    ensures forall k :: 0 <= k < |sub| ==>
              sub[k] in s && sub[k] != s[0] && Position(s, sub[k]) == 1 + Position(s[1..], sub[k])
  {
    forall k | 0 <= k < |sub|
      ensures sub[k] in s && sub[k] != s[0] && Position(s, sub[k]) == 1 + Position(s[1..], sub[k])
    {
      assert sub[k] in sub;
      var m := Position(s[1..], sub[k]);
      assert s[m + 1] == sub[k];
    }
  }

  /** The group features the table carries, in group order: the scaler's columns. */
  function Feats(columns: set<string>): (feats: seq<string>)
    ensures forall f :: f in feats <==> f in AllFeatures && f in columns
  {
    Present(AllFeatures, columns)
  }

  /** The position of `x` in `s`. */
  function Position<T(==)>(s: seq<T>, x: T): (i: nat)
    requires x in s
    ensures i < |s| && s[i] == x
  {
    if s[0] == x then 0 else 1 + Position(s[1..], x)
  }

  /**
   * `max(2, min(100, n // 10))`: the number of quantiles the scaler is
   * fitted with for `n` wallets.
   */
  function QuantileCount(n: nat): (q: nat)
    ensures 2 <= q <= 100
    ensures q == 2 || q == 100 || (q * 10 <= n < (q + 1) * 10)
    ensures 2 <= n / 10 <= 100 ==> q == n / 10
    ensures n < 30 ==> q == 2
    ensures n >= 1000 ==> q == 100
  {
    var tenth := n / 10;
    if tenth < 2 then 2 else if tenth > 100 then 100 else tenth
  }

  /** What the scaler is fitted on: the quantile count and the selected feature columns. */
  function ScalerInput(t: Table): (input: (nat, seq<seq<real>>))
    requires Rectangular(t)
    ensures input.0 == QuantileCount(|t.rows|)
    ensures |input.1| == |t.rows|
    ensures forall i, j :: 0 <= i < |t.rows| && 0 <= j < |Feats(t.columns)| ==>
              |input.1[i]| == |Feats(t.columns)| && input.1[i][j] == t.rows[i].values[Feats(t.columns)[j]]
  {
    var feats := Feats(t.columns);
    assert forall j :: 0 <= j < |feats| ==> feats[j] in t.columns;
    (QuantileCount(|t.rows|),
     seq(|t.rows|, i requires 0 <= i < |t.rows| =>
       seq(|feats|, j requires 0 <= j < |feats| => t.rows[i].values[feats[j]])))
  }

  // ---------------------------------------------------------------------
  // Group scores

  /** A scaled value, inverted (1 - v) for the features in `NegFeatures`. */
  function Oriented(f: string, v: real): (o: real)
    ensures f in NegFeatures ==> o + v == 1.0
    ensures f !in NegFeatures ==> o == v
    ensures 0.0 <= v <= 1.0 ==> 0.0 <= o <= 1.0
  {
    if f in NegFeatures then 1.0 - v else v
  }

  /** The oriented scaled values of the group's present features, for one row of the scaler's output. */
  function GroupValues(g: Group, feats: seq<string>, scaled: seq<real>): (vs: seq<real>)
    requires |scaled| == |feats|
    ensures |vs| <= |Members(g)|
    ensures var present := Present(Members(g), set f | f in feats);
            && |vs| == |present|
            && forall k :: 0 <= k < |present| ==>
                 present[k] in feats && vs[k] == Oriented(present[k], scaled[Position(feats, present[k])])
  {
    var present := Present(Members(g), set f | f in feats);
    assert forall k :: 0 <= k < |present| ==> present[k] in present;
    var vs := seq(|present|, k requires 0 <= k < |present| =>
      var j := Position(feats, present[k]);
      Oriented(feats[j], scaled[j]));
    assert forall k :: 0 <= k < |vs| ==>
      var j := Position(feats, present[k]);
      0 <= j < |feats| && vs[k] == Oriented(feats[j], scaled[j]);
    vs
  }

  /** The mean of the group's present oriented values, or 0 when none of its features is present. */
  function GroupScore(g: Group, feats: seq<string>, scaled: seq<real>): (s: real)
    requires |scaled| == |feats|
    ensures |GroupValues(g, feats, scaled)| == 0 ==> s == 0.0
    ensures |GroupValues(g, feats, scaled)| > 0 ==>
              Min(GroupValues(g, feats, scaled)) <= s <= Max(GroupValues(g, feats, scaled))
    ensures |GroupValues(g, feats, scaled)| > 0 ==>
              Times(s, |GroupValues(g, feats, scaled)|) == Sum(GroupValues(g, feats, scaled))
  {
    var vs := GroupValues(g, feats, scaled);
    if |vs| == 0 then 0.0 else Mean(vs)
  }

  /** With scaled values in [0, 1], every group score is in [0, 1]. */
  lemma GroupScoreInUnit(g: Group, feats: seq<string>, scaled: seq<real>)
    requires |scaled| == |feats|
    requires forall j :: 0 <= j < |scaled| ==> 0.0 <= scaled[j] <= 1.0
    ensures 0.0 <= GroupScore(g, feats, scaled) <= 1.0
  {
    var vs := GroupValues(g, feats, scaled);
    if |vs| > 0 {
      assert forall k :: 0 <= k < |vs| ==> 0.0 <= vs[k] <= 1.0;
      assert 0.0 <= Min(vs) && Max(vs) <= 1.0;
    }
  }

  // ---------------------------------------------------------------------
  // Raw score, overrides and rounding

  /** The weighted sum of the three group scores. */
  function Weighted(w: Weights, health: real, trust: real, risk: real): real
    requires ValidWeights(w)
  {
    health * w["health"] + trust * w["trust"] + risk * w["risk"]
  }

  /** With non-negative weights, a mix of group scores in [0, 1] lies in [0, the weights' sum]. */
  lemma WeightedBounds(w: Weights, health: real, trust: real, risk: real)
    requires ValidWeights(w)
    requires w["health"] >= 0.0 && w["trust"] >= 0.0 && w["risk"] >= 0.0
    requires 0.0 <= health <= 1.0 && 0.0 <= trust <= 1.0 && 0.0 <= risk <= 1.0
    ensures 0.0 <= Weighted(w, health, trust, risk) <= w["health"] + w["trust"] + w["risk"]
  {
    MixBounds(health, trust, risk, w["health"], w["trust"], w["risk"]);
  }

  lemma MixBounds(h: real, t: real, r: real, a: real, b: real, c: real)
    requires 0.0 <= h <= 1.0 && 0.0 <= t <= 1.0 && 0.0 <= r <= 1.0
    requires a >= 0.0 && b >= 0.0 && c >= 0.0
    ensures 0.0 <= h * a + t * b + r * c <= a + b + c
  {
    FractionBound(h, a);
    FractionBound(t, b);
    FractionBound(r, c);
    var x, y, z := h * a, t * b, r * c;
    assert 0.0 <= x <= a;
    assert 0.0 <= y <= b;
    assert 0.0 <= z <= c;
  }

  /** The overrides: x0.2 for a wallet ever liquidated, then x0.5 for a repayment ratio below 0.8. */
  function Overridden(raw: real, everLiquidated: real, repaymentRatio: real): (r: real)
    ensures everLiquidated != 1.0 && repaymentRatio >= 0.8 ==> r == raw
  {
    var afterLiquidation := if everLiquidated == 1.0 then raw * 0.2 else raw;
    if repaymentRatio < 0.8 then afterLiquidation * 0.5 else afterLiquidation
  }

  /** Each override alone scales the raw score by its factor; both together by 0.1. */
  lemma OverrideFactors(raw: real, everLiquidated: real, repaymentRatio: real)
    ensures everLiquidated == 1.0 && repaymentRatio >= 0.8 ==> Overridden(raw, everLiquidated, repaymentRatio) == raw * 0.2
    ensures everLiquidated != 1.0 && repaymentRatio < 0.8 ==> Overridden(raw, everLiquidated, repaymentRatio) == raw * 0.5
    ensures everLiquidated == 1.0 && repaymentRatio < 0.8 ==> Overridden(raw, everLiquidated, repaymentRatio) == raw * 0.1
  {
  }

  /** The overrides never raise a non-negative raw score, nor make it negative. */
  lemma OverridesOnlyLower(raw: real, everLiquidated: real, repaymentRatio: real)
    requires raw >= 0.0
    ensures 0.0 <= Overridden(raw, everLiquidated, repaymentRatio) <= raw
  {
  }

  /** `clip(0, 1)`. */
  function Clip(x: real): (c: real)
    ensures 0.0 <= c <= 1.0
    ensures 0.0 <= x <= 1.0 ==> c == x
    ensures x < 0.0 ==> c == 0.0
    ensures x > 1.0 ==> c == 1.0
  {
    if x < 0.0 then 0.0 else if x > 1.0 then 1.0 else x
  }

  /** pandas `round()`: the nearest integer, ties going to the even neighbour. */
  function RoundHalfEven(x: real): (r: int)
    ensures x - 0.5 <= r as real <= x + 0.5
    ensures (r as real - x == 0.5 || x - r as real == 0.5) ==> r % 2 == 0
  {
    var f := x.Floor;
    var d := x - f as real;
    if d < 0.5 then f
    else if d > 0.5 then f + 1
    else if f % 2 == 0 then f else f + 1
  }

  /** The nearest integer with ties to even is the only integer with both properties. */
  lemma RoundHalfEvenUnique(x: real, k: int)
    requires x - 0.5 <= k as real <= x + 0.5
    requires (k as real - x == 0.5 || x - k as real == 0.5) ==> k % 2 == 0
    ensures k == RoundHalfEven(x)
  {
  }

  /** Rounding preserves order. */
  lemma RoundHalfEvenMonotone(x: real, y: real)
    requires x <= y
    ensures RoundHalfEven(x) <= RoundHalfEven(y)
  {
  }

  /** The 0-100 score of a raw score: the clipped raw score as a percentage, rounded. */
  function ScoreOf(raw: real): (s: int)
    ensures 0 <= s <= 100
    ensures Clip(raw) * 100.0 - 0.5 <= s as real <= Clip(raw) * 100.0 + 0.5
  {
    RoundHalfEven(Clip(raw) * 100.0)
  }

  /** A higher raw score never gets a lower score. */
  lemma ScoreMonotone(a: real, b: real)
    requires a <= b
    ensures ScoreOf(a) <= ScoreOf(b)
  {
    assert Clip(a) <= Clip(b);
    RoundHalfEvenMonotone(Clip(a) * 100.0, Clip(b) * 100.0);
  }

  /** Raw scores at or below 0 score 0; raw scores at or above 1 score 100. */
  lemma ScoreExtremes(raw: real)
    ensures raw <= 0.0 ==> ScoreOf(raw) == 0
    ensures raw >= 1.0 ==> ScoreOf(raw) == 100
  {
  }

  // ---------------------------------------------------------------------
  // The whole scorer

  /** Scores one row from its row of the scaler's output. */
  function ScoreRow(row: Row, w: Weights, feats: seq<string>, scaled: seq<real>): (s: ScoredRow)
    requires ValidWeights(w)
    requires |scaled| == |feats|
    requires EverLiquidated in row.values && RepaymentRatio in row.values
    ensures s.row == row
    ensures s.health == GroupScore(Health, feats, scaled)
    ensures s.trust == GroupScore(Trust, feats, scaled)
    ensures s.risk == GroupScore(Risk, feats, scaled)
    ensures s.raw == Overridden(Weighted(w, s.health, s.trust, s.risk),
                                row.values[EverLiquidated], row.values[RepaymentRatio])
    ensures s.score == ScoreOf(s.raw)
  {
    var health := GroupScore(Health, feats, scaled);
    var trust := GroupScore(Trust, feats, scaled);
    var risk := GroupScore(Risk, feats, scaled);
    var raw := Overridden(Weighted(w, health, trust, risk), row.values[EverLiquidated], row.values[RepaymentRatio]);
    ScoredRow(row, health, trust, risk, raw, ScoreOf(raw))
  }

  /** The scored rows in input order. */
  function ScoreRows(t: Table, w: Weights, scaled: seq<seq<real>>): (out: seq<ScoredRow>)
    requires Rectangular(t) && ValidWeights(w)
    requires EverLiquidated in t.columns && RepaymentRatio in t.columns
    requires |scaled| == |t.rows|
    requires forall i :: 0 <= i < |scaled| ==> |scaled[i]| == |Feats(t.columns)|
    ensures |out| == |t.rows|
    ensures forall i :: 0 <= i < |out| ==> out[i] == ScoreRow(t.rows[i], w, Feats(t.columns), scaled[i])
    ensures forall i :: 0 <= i < |out| ==> out[i].row == t.rows[i] && 0 <= out[i].score <= 100
  {
    seq(|t.rows|, i requires 0 <= i < |t.rows| => ScoreRow(t.rows[i], w, Feats(t.columns), scaled[i]))
  }

  /** The sort key: ascending in it is descending in score. */
  function ByScoreDescending(s: ScoredRow): real
  {
    -(s.score as real)
  }

  /** The scored rows from the highest score down: a rearrangement of them, never rising in score. */
  function Ranked(scored: seq<ScoredRow>): (out: seq<ScoredRow>)
    ensures |out| == |scored|
    ensures multiset(out) == multiset(scored)
    ensures forall x :: x in out <==> x in scored
    ensures forall i, j :: 0 <= i < j < |out| ==> out[i].score >= out[j].score
    ensures (forall i :: 0 <= i < |scored| ==> 0 <= scored[i].score <= 100) ==>
              forall i :: 0 <= i < |out| ==> 0 <= out[i].score <= 100
  {
    var out := SortBy(scored, ByScoreDescending);
    RearrangedScores(scored, out);
    out
  }

  lemma RearrangedScores(scored: seq<ScoredRow>, out: seq<ScoredRow>)
    requires multiset(out) == multiset(scored)
    requires SortedBy(out, ByScoreDescending)
    ensures forall x :: x in out <==> x in scored
    ensures forall i, j :: 0 <= i < j < |out| ==> out[i].score >= out[j].score
    ensures (forall i :: 0 <= i < |scored| ==> 0 <= scored[i].score <= 100) ==>
              forall i :: 0 <= i < |out| ==> 0 <= out[i].score <= 100
  {
    forall x
      ensures x in out <==> x in scored
    {
      assert x in out <==> x in multiset(out);
      assert x in scored <==> x in multiset(scored);
    }
    forall i, j | 0 <= i < j < |out|
      ensures out[i].score >= out[j].score
    {
      assert ByScoreDescending(out[i]) <= ByScoreDescending(out[j]);
    }
    if forall i :: 0 <= i < |scored| ==> 0 <= scored[i].score <= 100 {
      forall i | 0 <= i < |out|
        ensures 0 <= out[i].score <= 100
      {
        assert out[i] in scored;
      }
    }
  }

  /**
   * `calculate_scores`: the error cases in the order the scorer meets them,
   * otherwise every row scored and sorted from the highest score down.
   */
  function CalculateScores(t: Table, w: Weights, scaled: seq<seq<real>>): (r: Result<seq<ScoredRow>, ScoreError>)
    requires Rectangular(t)
    requires |scaled| == |t.rows|
    requires forall i :: 0 <= i < |scaled| ==> |scaled[i]| == |Feats(t.columns)|
    ensures r == Err(InvalidWeights) <==> !ValidWeights(w)
    ensures r == Err(NoFeatures) <==> ValidWeights(w) && |Feats(t.columns)| == 0
    ensures r == Err(NoSamples) <==> ValidWeights(w) && |Feats(t.columns)| > 0 && |t.rows| == 0
    ensures r.Ok? <==> ValidWeights(w) && |Feats(t.columns)| > 0 && |t.rows| > 0
                        && EverLiquidated in t.columns && RepaymentRatio in t.columns
    ensures r.Ok? ==> |r.value| == |t.rows|
    ensures r.Ok? ==> forall i, j :: 0 <= i < j < |r.value| ==> r.value[i].score >= r.value[j].score
    ensures r.Ok? ==> forall i :: 0 <= i < |r.value| ==> 0 <= r.value[i].score <= 100
  {
    if !ValidWeights(w) then Err(InvalidWeights)
    else if |Feats(t.columns)| == 0 then Err(NoFeatures)
    else if |t.rows| == 0 then Err(NoSamples)
    else if EverLiquidated !in t.columns then Err(MissingColumn(EverLiquidated))
    else if RepaymentRatio !in t.columns then Err(MissingColumn(RepaymentRatio))
    else Ok(ScoreAndRank(t, w, scaled))
  }

  /** Every row scored, then ranked. */
  function ScoreAndRank(t: Table, w: Weights, scaled: seq<seq<real>>): (out: seq<ScoredRow>)
    requires Rectangular(t) && ValidWeights(w)
    requires EverLiquidated in t.columns && RepaymentRatio in t.columns
    requires |scaled| == |t.rows|
    requires forall i :: 0 <= i < |scaled| ==> |scaled[i]| == |Feats(t.columns)|
    ensures |out| == |t.rows|
    ensures forall i, j :: 0 <= i < j < |out| ==> out[i].score >= out[j].score
    ensures forall i :: 0 <= i < |out| ==> 0 <= out[i].score <= 100
  {
    Ranked(ScoreRows(t, w, scaled))
  }

  /**
   * A successful `calculate_scores` returns the scored rows themselves,
   * rearranged: with `RearrangementKeepsRows`, every row of the table
   * appears in the result and every result row comes from the table.
   */
  lemma CalculateScoresKeepsRows(t: Table, w: Weights, scaled: seq<seq<real>>)
    requires Rectangular(t)
    requires |scaled| == |t.rows|
    requires forall i :: 0 <= i < |scaled| ==> |scaled[i]| == |Feats(t.columns)|
    requires ValidWeights(w) && |Feats(t.columns)| > 0 && |t.rows| > 0
    requires EverLiquidated in t.columns && RepaymentRatio in t.columns
    ensures CalculateScores(t, w, scaled).Ok?
    ensures multiset(CalculateScores(t, w, scaled).value) == multiset(ScoreRows(t, w, scaled))
  {
    assert CalculateScores(t, w, scaled) == Ok(ScoreAndRank(t, w, scaled));
  }

  /**
   * Any rearrangement of the scored rows (the scorer's output, by
   * `CalculateScoresKeepsRows`) holds every input row and nothing else.
   */
  lemma RearrangementKeepsRows(rows: seq<Row>, scored: seq<ScoredRow>, out: seq<ScoredRow>)
    requires |scored| == |rows| && forall i :: 0 <= i < |rows| ==> scored[i].row == rows[i]
    requires multiset(out) == multiset(scored)
    ensures forall k :: 0 <= k < |out| ==> exists i :: 0 <= i < |rows| && out[k].row == rows[i]
    ensures forall i :: 0 <= i < |rows| ==> exists k :: 0 <= k < |out| && out[k].row == rows[i]
  {
    forall k | 0 <= k < |out|
      ensures exists i :: 0 <= i < |rows| && out[k].row == rows[i]
    {
      assert out[k] in multiset(out);
      var i :| 0 <= i < |scored| && scored[i] == out[k];
      assert out[k].row == rows[i];
    }
    forall i | 0 <= i < |rows|
      ensures exists k :: 0 <= k < |out| && out[k].row == rows[i]
    {
      assert scored[i] in multiset(scored);
      var k :| 0 <= k < |out| && out[k] == scored[i];
      assert out[k].row == rows[i];
    }
  }

  /**
   * With the scaler's values in [0, 1] and non-negative weights, a raw score
   * never exceeds the weights' sum, and an overridden one never exceeds the
   * unpenalised mix.
   */
  lemma RawScoreBounds(row: Row, w: Weights, feats: seq<string>, scaled: seq<real>)
    requires ValidWeights(w)
    requires w["health"] >= 0.0 && w["trust"] >= 0.0 && w["risk"] >= 0.0
    requires |scaled| == |feats|
    requires forall j :: 0 <= j < |scaled| ==> 0.0 <= scaled[j] <= 1.0
    requires EverLiquidated in row.values && RepaymentRatio in row.values
    ensures var s := ScoreRow(row, w, feats, scaled);
            0.0 <= s.raw <= Weighted(w, s.health, s.trust, s.risk) <= w["health"] + w["trust"] + w["risk"]
  {
    var s := ScoreRow(row, w, feats, scaled);
    GroupScoreInUnit(Health, feats, scaled);
    GroupScoreInUnit(Trust, feats, scaled);
    GroupScoreInUnit(Risk, feats, scaled);
    WeightedBounds(w, s.health, s.trust, s.risk);
    OverridesOnlyLower(Weighted(w, s.health, s.trust, s.risk), row.values[EverLiquidated], row.values[RepaymentRatio]);
  }

  // ---------------------------------------------------------------------
  // From the feature engine to the scorer

  /** The feature engine's columns. */
  const FeatureColumns: set<string> := {
    "raw_deposits_usd", "raw_borrows_usd", "repayment_ratio", "net_collateral_flow",
    "health_factor", "liquidation_count", "ever_liquidated", "account_age_days",
    "unique_active_days", "tx_count", "asset_diversity", "usd_amount_std",
    "median_tx_gap_hours", "tx_freq_per_day", "log_net_collateral_flow",
    "log_usd_amount_std", "log_account_age_days", "log_unique_active_days",
    "log_median_tx_gap_hours", "log_tx_freq_per_day"
  }

  /** One feature row as named column values. */
  function FeatureValues(r: Features.FeatureRow): (m: map<string, real>)
    ensures m.Keys == FeatureColumns
  {
    var b, l := r.base, r.logs;
    map[
      "raw_deposits_usd" := b.rawDepositsUsd, "raw_borrows_usd" := b.rawBorrowsUsd,
      "repayment_ratio" := b.repaymentRatio, "net_collateral_flow" := b.netCollateralFlow,
      "health_factor" := b.healthFactor, "liquidation_count" := b.liquidationCount as real,
      "ever_liquidated" := b.everLiquidated as real, "account_age_days" := b.accountAgeDays as real,
      "unique_active_days" := b.uniqueActiveDays as real, "tx_count" := b.txCount as real,
      "asset_diversity" := b.assetDiversity as real, "usd_amount_std" := b.usdAmountStd,
      "median_tx_gap_hours" := b.medianTxGapHours, "tx_freq_per_day" := b.txFreqPerDay,
      "log_net_collateral_flow" := l.logNetCollateralFlow, "log_usd_amount_std" := l.logUsdAmountStd,
      "log_account_age_days" := l.logAccountAgeDays, "log_unique_active_days" := l.logUniqueActiveDays,
      "log_median_tx_gap_hours" := l.logMedianTxGapHours, "log_tx_freq_per_day" := l.logTxFreqPerDay
    ]
  }

  /**
   * The feature table as the scorer sees it. The feature engine's empty
   * result is a frame without any column, so an empty table has none.
   */
  function ToTable(table: seq<Features.FeatureRow>): (t: Table)
    ensures Rectangular(t)
    ensures |t.rows| == |table|
    ensures t.columns == if |table| == 0 then {} else FeatureColumns
  {
    var rows := seq(|table|, i requires 0 <= i < |table| => Row(table[i].wallet, FeatureValues(table[i])));
    Table(if |table| == 0 then {} else FeatureColumns, rows)
  }

  /**
   * Scoring the feature table of an empty ledger fails for want of features,
   * whatever the weights are, once they are valid.
   */
  lemma EmptyLedgerHasNoFeatures(w: Weights, log1p: real -> real, sqrt: real -> real)
    requires ValidWeights(w)
    ensures CalculateScores(ToTable(Features.EngineerFeatures([], log1p, sqrt)), w, []) == Err(NoFeatures)
  {
    var t := ToTable(Features.EngineerFeatures([], log1p, sqrt));
    assert t.columns == {};
    NothingPresent(AllFeatures, t.columns);
  }

  lemma {:induction false} NothingPresent(names: seq<string>, columns: set<string>)
    requires forall k :: 0 <= k < |names| ==> names[k] !in columns
    ensures Present(names, columns) == []
  {
    if |names| > 0 {
      NothingPresent(names[1..], columns);
    }
  }

  /**
   * A non-empty feature table (the engine's result for a non-empty ledger)
   * carries every group feature and both override columns, so with valid
   * weights it always scores.
   */
  lemma NonEmptyFeatureTableScores(table: seq<Features.FeatureRow>, w: Weights, scaled: seq<seq<real>>)
    requires |table| > 0 && ValidWeights(w)
    requires |scaled| == |table|
    requires forall i :: 0 <= i < |scaled| ==> |scaled[i]| == |AllFeatures|
    ensures Feats(ToTable(table).columns) == AllFeatures
    ensures CalculateScores(ToTable(table), w, scaled).Ok?
  {
    AllPresent(AllFeatures, FeatureColumns);
  }

  lemma {:induction false} AllPresent(names: seq<string>, columns: set<string>)
    requires forall k :: 0 <= k < |names| ==> names[k] in columns
    ensures Present(names, columns) == names
  {
    if |names| > 0 {
      AllPresent(names[1..], columns);
    }
  }
}
