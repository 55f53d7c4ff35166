/**
 * The feature engine (`engineer_features` in features.py): folds the ledger
 * per wallet into fourteen base features, then derives six log features,
 * each winsorised at its own 99th percentile across wallets.
 *
 * `log1p` and the square root behind the standard deviation are floating
 * point library calls; they are parameters here and nothing is assumed of
 * them.
 */
module Features {
  import opened Common
  import opened Sorting
  import opened Stats
  import opened Loader
  import opened Text

  /** The ratio guard epsilon (1e-9). */
  const EPS: real := 0.000000001
  const MsPerDay: int := 86400000
  const MsPerHour: real := 3600000.0

  /** The fourteen per-wallet base features. */
  datatype Base = Base(
    rawDepositsUsd: real,
    rawBorrowsUsd: real,
    repaymentRatio: real,
    netCollateralFlow: real,
    healthFactor: real,
    liquidationCount: nat,
    everLiquidated: nat,
    accountAgeDays: nat,
    uniqueActiveDays: nat,
    txCount: nat,
    assetDiversity: nat,
    usdAmountStd: real,
    medianTxGapHours: real,
    txFreqPerDay: real)

  /** The six log-transformed, winsorised features, one per `LogFeature`. */
  datatype Logs = Logs(
    logNetCollateralFlow: real,
    logUsdAmountStd: real,
    logAccountAgeDays: real,
    logUniqueActiveDays: real,
    logMedianTxGapHours: real,
    logTxFreqPerDay: real)

  /** One row of the feature table. */
  datatype FeatureRow = FeatureRow(wallet: string, base: Base, logs: Logs)

  datatype LogFeature = LogNet | LogStd | LogAge | LogDays | LogGap | LogFreq

  // ---------------------------------------------------------------------
  // Sums and ratios

  /** The `amountUSD` column with every row of another action type zeroed. */
  function Masked(rows: seq<Entry>, action: string): (col: seq<real>)
    ensures |col| == |rows|
    ensures forall i :: 0 <= i < |rows| ==> col[i] == if rows[i].actionType == action then rows[i].amount else 0.0
  {
    seq(|rows|, i requires 0 <= i < |rows| => if rows[i].actionType == action then rows[i].amount else 0.0)
  }

  /** The sum of `amountUSD` over the rows of one action type; 0 when there are none. */
  function ActionSum(rows: seq<Entry>, action: string): real
  {
    if |rows| == 0 then 0.0
    else ActionSum(rows[..|rows| - 1], action)
         + (if rows[|rows| - 1].actionType == action then rows[|rows| - 1].amount else 0.0)
  }

  /** An action's sum is the column total once the rows of other actions count as 0. */
  lemma {:induction false} ActionSumIsMaskedSum(rows: seq<Entry>, action: string)
    ensures ActionSum(rows, action) == Sum(Masked(rows, action))
  {
    if |rows| > 0 {
      var init := rows[..|rows| - 1];
      ActionSumIsMaskedSum(init, action);
      assert Masked(rows, action)[..|init|] == Masked(init, action);
    }
  }

  lemma {:induction false} ActionSumAbsent(rows: seq<Entry>, action: string)
    requires forall i :: 0 <= i < |rows| ==> rows[i].actionType != action
    ensures ActionSum(rows, action) == 0.0
  {
    if |rows| > 0 {
      ActionSumAbsent(rows[..|rows| - 1], action);
    }
  }

  lemma {:induction false} ActionSumNonNegative(rows: seq<Entry>, action: string)
    requires forall i :: 0 <= i < |rows| ==> rows[i].amount >= 0.0
    ensures ActionSum(rows, action) >= 0.0
  {
    if |rows| > 0 {
      ActionSumNonNegative(rows[..|rows| - 1], action);
    }
  }

  /**
   * repaid / (borrowed + EPS), clipped above at 1, and exactly 1 when less
   * than EPS was borrowed.
   */
  function RepaymentRatio(repaid: real, borrowed: real): (r: real)
    ensures r <= 1.0
    ensures borrowed < EPS ==> r == 1.0
    ensures borrowed >= EPS ==> r * (borrowed + EPS) <= repaid
    ensures borrowed >= EPS && repaid <= borrowed + EPS ==> r * (borrowed + EPS) == repaid
    ensures borrowed >= EPS && repaid >= borrowed + EPS ==> r == 1.0
    ensures repaid >= 0.0 ==> r >= 0.0
  {
    if borrowed < EPS then 1.0
    else
      var q := repaid / (borrowed + EPS);
      QuotientAtLeastOne(repaid, borrowed + EPS);
      if q <= 1.0 then q else 1.0
  }

  /** net / (borrowed + EPS); a zero denominator (0/0 in pandas, then NaN filled with 0) gives 0. */
  function HealthFactor(net: real, borrowed: real): (h: real)
    ensures borrowed + EPS != 0.0 ==> h * (borrowed + EPS) == net
    ensures borrowed + EPS == 0.0 ==> h == 0.0
  {
    if borrowed + EPS == 0.0 then 0.0 else net / (borrowed + EPS)
  }

  // ---------------------------------------------------------------------
  // Counts and times

  /** The hashes of the wallet's `liquidated_event` rows, in order. */
  function LiquidatedHashes(rows: seq<Entry>): (hs: seq<Json>)
    ensures |hs| <= |rows|
    ensures |hs| == 0 <==> forall i :: 0 <= i < |rows| ==> rows[i].actionType != LiquidatedEvent
    ensures forall h :: h in hs <==>
              exists i :: 0 <= i < |rows| && rows[i].actionType == LiquidatedEvent && rows[i].txHash == h
  {
    if |rows| == 0 then []
    else
      var init := LiquidatedHashes(rows[..|rows| - 1]);
      assert forall i :: 0 <= i < |rows| - 1 ==> rows[..|rows| - 1][i] == rows[i];
      if rows[|rows| - 1].actionType == LiquidatedEvent then init + [rows[|rows| - 1].txHash] else init
  }

  function Timestamps(rows: seq<Entry>): (ts: seq<int>)
    ensures |ts| == |rows|
    ensures forall i :: 0 <= i < |rows| ==> ts[i] == rows[i].timestamp
  {
    seq(|rows|, i requires 0 <= i < |rows| => rows[i].timestamp)
  }

  function MinInt(s: seq<int>): (m: int)
    requires |s| > 0
    ensures m in s && forall i :: 0 <= i < |s| ==> m <= s[i]
  {
    if |s| == 1 then s[0]
    else
      var m := MinInt(s[1..]);
      assert forall i :: 1 <= i < |s| ==> s[i] == s[1..][i - 1];
      if s[0] <= m then s[0] else m
  }

  function MaxInt(s: seq<int>): (m: int)
    requires |s| > 0
    ensures m in s && forall i :: 0 <= i < |s| ==> s[i] <= m
  {
    if |s| == 1 then s[0]
    else
      var m := MaxInt(s[1..]);
      assert forall i :: 1 <= i < |s| ==> s[i] == s[1..][i - 1];
      if m <= s[0] then s[0] else m
  }

  /** The whole days from the first to the last timestamp (`Timedelta.days`). */
  function AccountAgeDays(ts: seq<int>): (d: nat)
    requires |ts| > 0
    ensures d * MsPerDay <= MaxInt(ts) - MinInt(ts) < (d + 1) * MsPerDay
  {
    (MaxInt(ts) - MinInt(ts)) / MsPerDay
  }

  /** The calendar day (UTC) of an epoch-millisecond instant, floored as `dt.floor("d")` does. */
  function Day(t: int): (d: int)
    ensures d * MsPerDay <= t < (d + 1) * MsPerDay
  {
    t / MsPerDay
  }

  function Days(ts: seq<int>): (ds: seq<int>)
    ensures |ds| == |ts|
    ensures forall i :: 0 <= i < |ts| ==> ds[i] == Day(ts[i])
  {
    seq(|ts|, i requires 0 <= i < |ts| => Day(ts[i]))
  }

  function IntKey(t: int): real { t as real }

  /** Gaps in hours between consecutive timestamps of a time-sorted sequence. */
  function GapHours(sorted: seq<int>): (gs: seq<real>)
    requires SortedBy(sorted, IntKey)
    requires |sorted| > 0
    ensures |gs| == |sorted| - 1
    ensures forall i :: 0 <= i < |gs| ==> gs[i] >= 0.0 && gs[i] * MsPerHour == (sorted[i + 1] - sorted[i]) as real
  {
    assert forall i :: 0 <= i < |sorted| - 1 ==> IntKey(sorted[i]) <= IntKey(sorted[i + 1]);
    seq(|sorted| - 1, i requires 0 <= i < |sorted| - 1 => (sorted[i + 1] - sorted[i]) as real / MsPerHour)
  }

  /** The median gap in hours between a wallet's consecutive transactions; 0 with fewer than two. */
  function MedianGapHours(ts: seq<int>): (m: real)
    ensures m >= 0.0
    ensures |ts| < 2 ==> m == 0.0
  {
    if |ts| < 2 then 0.0
    else
      var gaps := SortReals(GapHours(SortBy(ts, IntKey)));
      assert gaps[0] in multiset(GapHours(SortBy(ts, IntKey)));
      Median(gaps)
  }

  // ---------------------------------------------------------------------
  // Dispersion

  lemma {:induction false} SumNonNegative(s: seq<real>)
    requires forall i :: 0 <= i < |s| ==> s[i] >= 0.0
    ensures Sum(s) >= 0.0
  {
    if |s| > 0 {
      SumNonNegative(s[..|s| - 1]);
    }
  }

  lemma {:induction false} SumZero(s: seq<real>)
    requires forall i :: 0 <= i < |s| ==> s[i] == 0.0
    ensures Sum(s) == 0.0
  {
    if |s| > 0 {
      SumZero(s[..|s| - 1]);
    }
  }

  /** A square is never negative, and is zero only for zero. */
  lemma SquareSign(x: real)
    ensures x == 0.0 ==> x * x == 0.0
    ensures x != 0.0 ==> x * x > 0.0
  {
    if x > 0.0 {
      assert x * x > 0.0 * x;
    } else if x < 0.0 {
      var y := -x;
      assert y * y > 0.0 * y;
      assert x * x == y * y;
    }
  }

  function SquaredDeviations(xs: seq<real>, m: real): (ds: seq<real>)
    ensures |ds| == |xs|
    ensures forall i :: 0 <= i < |xs| ==> ds[i] >= 0.0 && (ds[i] == 0.0 <==> xs[i] == m)
  {
    var ds := seq(|xs|, i requires 0 <= i < |xs| => (xs[i] - m) * (xs[i] - m));
    assert forall i :: 0 <= i < |xs| ==> ds[i] >= 0.0 && (ds[i] == 0.0 <==> xs[i] == m) by {
      forall i | 0 <= i < |xs| {
        SquareSign(xs[i] - m);
      }
    }
    ds
  }

  /** The sample variance (denominator n - 1); never negative, and zero when every value is the same. */
  function SampleVariance(xs: seq<real>): (v: real)
    requires |xs| >= 2
    ensures v >= 0.0
    ensures (forall i :: 0 <= i < |xs| ==> xs[i] == xs[0]) ==> v == 0.0
  {
    VarianceBounds(xs);
    Sum(SquaredDeviations(xs, Mean(xs))) / (|xs| - 1) as real
  }

  lemma VarianceBounds(xs: seq<real>)
    requires |xs| >= 2
    ensures Sum(SquaredDeviations(xs, Mean(xs))) / (|xs| - 1) as real >= 0.0
    ensures (forall i :: 0 <= i < |xs| ==> xs[i] == xs[0]) ==> Sum(SquaredDeviations(xs, Mean(xs))) / (|xs| - 1) as real == 0.0
  {
    SumNonNegative(SquaredDeviations(xs, Mean(xs)));
    ConstantHasNoDeviation(xs);
    QuotientSign(Sum(SquaredDeviations(xs, Mean(xs))), (|xs| - 1) as real);
  }

  lemma QuotientSign(total: real, n: real)
    requires n > 0.0 && total >= 0.0
    ensures total / n >= 0.0
    ensures total == 0.0 ==> total / n == 0.0
  {
  }

  lemma ConstantHasNoDeviation(xs: seq<real>)
    requires |xs| > 0
    ensures (forall i :: 0 <= i < |xs| ==> xs[i] == xs[0]) ==> Sum(SquaredDeviations(xs, Mean(xs))) == 0.0
  {
    if forall i :: 0 <= i < |xs| ==> xs[i] == xs[0] {
      assert Min(xs) == xs[0] == Max(xs);
      SumZero(SquaredDeviations(xs, Mean(xs)));
    }
  }

  function Amounts(rows: seq<Entry>): (xs: seq<real>)
    ensures |xs| == |rows|
    ensures forall i :: 0 <= i < |rows| ==> xs[i] == rows[i].amount
  {
    seq(|rows|, i requires 0 <= i < |rows| => rows[i].amount)
  }

  /** pandas `std()` (ddof = 1): NaN for a single value, filled with 0. */
  function AmountStd(rows: seq<Entry>, sqrt: real -> real): (s: real)
    ensures |rows| < 2 ==> s == 0.0
    ensures |rows| >= 2 ==> s == sqrt(SampleVariance(Amounts(rows)))
  {
    if |rows| < 2 then 0.0 else sqrt(SampleVariance(Amounts(rows)))
  }

  // ---------------------------------------------------------------------
  // One wallet

  /** tx_count / unique_active_days, with a zero count of days replaced by 1. */
  function TxFrequency(txCount: nat, activeDays: nat): (f: real)
    ensures activeDays > 0 ==> f * activeDays as real == txCount as real
    ensures 0 < activeDays <= txCount ==> f >= 1.0
    ensures activeDays == 0 ==> f == txCount as real
  {
    var days := if activeDays == 0 then 1 else activeDays;
    QuotientAtLeastOne(txCount as real, days as real);
    txCount as real / days as real
  }

  lemma QuotientAtLeastOne(num: real, den: real)
    requires den > 0.0
    ensures den <= num ==> num / den >= 1.0
  {
    if den <= num {
      assert num / den * den == num;
    }
  }

  function Assets(rows: seq<Entry>): (xs: seq<Json>)
    ensures |xs| == |rows|
    ensures forall i :: 0 <= i < |rows| ==> xs[i] == rows[i].asset
  {
    seq(|rows|, i requires 0 <= i < |rows| => rows[i].asset)
  }

  /** The base features of one wallet from its ledger rows. */
  function BaseOf(rows: seq<Entry>, sqrt: real -> real): (b: Base)
    requires |rows| > 0
    ensures b.txCount == |rows|
    ensures 1 <= b.uniqueActiveDays <= b.txCount
    ensures b.txFreqPerDay >= 1.0
    ensures b.repaymentRatio <= 1.0 && (b.rawBorrowsUsd < EPS ==> b.repaymentRatio == 1.0)
    ensures b.netCollateralFlow == ActionSum(rows, "deposit") - ActionSum(rows, "withdraw")
    ensures b.rawDepositsUsd == ActionSum(rows, "deposit") && b.rawBorrowsUsd == ActionSum(rows, "borrow")
    ensures b.liquidationCount == 0 <==> forall i :: 0 <= i < |rows| ==> rows[i].actionType != LiquidatedEvent
    ensures b.everLiquidated == (if b.liquidationCount > 0 then 1 else 0)
    ensures 1 <= b.assetDiversity <= b.txCount
    ensures b.medianTxGapHours >= 0.0
    ensures |rows| == 1 ==> b.usdAmountStd == 0.0 && b.medianTxGapHours == 0.0 && b.accountAgeDays == 0
    ensures b.repaymentRatio == RepaymentRatio(ActionSum(rows, "repay"), b.rawBorrowsUsd)
    ensures b.healthFactor == HealthFactor(b.netCollateralFlow, b.rawBorrowsUsd)
    ensures b.txFreqPerDay == TxFrequency(b.txCount, b.uniqueActiveDays)
    ensures b.accountAgeDays == AccountAgeDays(Timestamps(rows))
    ensures b.usdAmountStd == AmountStd(rows, sqrt)
    ensures b.medianTxGapHours == MedianGapHours(Timestamps(rows))
  {
    var deposits := ActionSum(rows, "deposit");
    var borrows := ActionSum(rows, "borrow");
    var net := deposits - ActionSum(rows, "withdraw");
    var liquidations := DistinctCount(LiquidatedHashes(rows));
    var ts := Timestamps(rows);
    var activeDays := DistinctCount(Days(ts));
    var assets := Assets(rows);
    Base(
      deposits,
      borrows,
      RepaymentRatio(ActionSum(rows, "repay"), borrows),
      net,
      HealthFactor(net, borrows),
      liquidations,
      if liquidations > 0 then 1 else 0,
      AccountAgeDays(ts),
      activeDays,
      |rows|,
      DistinctCount(assets),
      AmountStd(rows, sqrt),
      MedianGapHours(ts),
      TxFrequency(|rows|, activeDays))
  }

  /**
   * The three counts of a wallet are numbers of different values:
   * liquidation_count of the hashes of its `liquidated_event` rows,
   * asset_diversity of its assets, unique_active_days of its calendar days.
   */
  lemma BaseOfCounts(rows: seq<Entry>, sqrt: real -> real)
    requires |rows| > 0
    ensures BaseOf(rows, sqrt).liquidationCount
              == |set i | 0 <= i < |rows| && rows[i].actionType == LiquidatedEvent :: rows[i].txHash|
    ensures BaseOf(rows, sqrt).assetDiversity == |set i | 0 <= i < |rows| :: rows[i].asset|
    ensures BaseOf(rows, sqrt).uniqueActiveDays == |set i | 0 <= i < |rows| :: Day(rows[i].timestamp)|
  {
    DistinctCountOfImage(LiquidatedHashes(rows),
      set i | 0 <= i < |rows| && rows[i].actionType == LiquidatedEvent :: rows[i].txHash);
    DistinctCountOfImage(Assets(rows), set i | 0 <= i < |rows| :: rows[i].asset);
    DistinctCountOfImage(Days(Timestamps(rows)), set i | 0 <= i < |rows| :: Day(rows[i].timestamp));
  }

  // ---------------------------------------------------------------------
  // Grouping by wallet

  /** Each wallet sorts strictly before the next, as the group keys of `groupby` do. */
  predicate Ascending(ws: seq<string>) {
    forall i, j :: 0 <= i < j < |ws| ==> Less(ws[i], ws[j])
  }

  /** `ws` with `w` inserted at its place in the order. */
  function InsertWallet(w: string, ws: seq<string>): (r: seq<string>)
    requires Ascending(ws) && w !in ws
    ensures Ascending(r)
    ensures forall x :: x in r <==> x == w || x in ws
    ensures |r| == |ws| + 1
  {
    if |ws| == 0 then [w]
    else if Less(w, ws[0]) then
      assert forall j :: 0 <= j < |ws| ==> Less(w, ws[j]) by {
        forall j | 0 < j < |ws| {
          LessTransitive(w, ws[0], ws[j]);
        }
      }
      [w] + ws
    else
      LessTotal(w, ws[0]);
      var rest := InsertWallet(w, ws[1..]);
      assert forall x :: x in rest ==> Less(ws[0], x) by {
        forall x | x in rest
          ensures Less(ws[0], x)
        {
          if x != w {
            var j :| 0 <= j < |ws[1..]| && ws[1..][j] == x;
            assert x == ws[j + 1];
          }
        }
      }
      assert ws == [ws[0]] + ws[1..];
      [ws[0]] + rest
  }

  /** The distinct wallets of the ledger, in ascending order. */
  function Wallets(ledger: seq<Entry>): (ws: seq<string>)
    ensures Ascending(ws)
    ensures forall i, j :: 0 <= i < j < |ws| ==> ws[i] != ws[j]
    ensures forall w :: w in ws <==> exists k :: 0 <= k < |ledger| && ledger[k].wallet == w
    ensures |ws| <= |ledger|
  {
    if |ledger| == 0 then []
    else
      var n := |ledger| - 1;
      var init := Wallets(ledger[..n]);
      assert forall k :: 0 <= k < n ==> ledger[..n][k] == ledger[k];
      var ws := if ledger[n].wallet in init then init else InsertWallet(ledger[n].wallet, init);
      assert forall i, j :: 0 <= i < j < |ws| ==> ws[i] != ws[j] by {
        forall i, j | 0 <= i < j < |ws|
          ensures ws[i] != ws[j]
        {
          LessIrreflexive(ws[i]);
        }
      }
      ws
  }

  /** The wallet's rows, in ledger order. */
  function RowsOf(ledger: seq<Entry>, w: string): (rows: seq<Entry>)
    ensures forall e :: e in rows <==> e in ledger && e.wallet == w
    ensures (exists k :: 0 <= k < |ledger| && ledger[k].wallet == w) ==> |rows| > 0
  {
    if |ledger| == 0 then []
    else
      var n := |ledger| - 1;
      var init := RowsOf(ledger[..n], w);
      assert ledger == ledger[..n] + [ledger[n]];
      assert forall k :: 0 <= k < n ==> ledger[..n][k] == ledger[k];
      if ledger[n].wallet == w then init + [ledger[n]] else init
  }

  // ---------------------------------------------------------------------
  // Log features

  /** The base column a log feature is derived from. */
  function SourceOf(b: Base, f: LogFeature): real
  {
    match f
    case LogNet => b.netCollateralFlow
    case LogStd => b.usdAmountStd
    case LogAge => b.accountAgeDays as real
    case LogDays => b.uniqueActiveDays as real
    case LogGap => b.medianTxGapHours
    case LogFreq => b.txFreqPerDay
  }

  function LogOf(l: Logs, f: LogFeature): real
  {
    match f
    case LogNet => l.logNetCollateralFlow
    case LogStd => l.logUsdAmountStd
    case LogAge => l.logAccountAgeDays
    case LogDays => l.logUniqueActiveDays
    case LogGap => l.logMedianTxGapHours
    case LogFreq => l.logTxFreqPerDay
  }

  function NetFlows(bases: seq<Base>): (ns: seq<real>)
    ensures |ns| == |bases|
    ensures forall i :: 0 <= i < |bases| ==> ns[i] == bases[i].netCollateralFlow
  {
    seq(|bases|, i requires 0 <= i < |bases| => bases[i].netCollateralFlow)
  }

  /** The shift added before the log: -min(net flow) + EPS for the net flow, EPS otherwise. */
  function ShiftOf(bases: seq<Base>, f: LogFeature): real
    requires |bases| > 0
  {
    if f == LogNet then -Min(NetFlows(bases)) + EPS else EPS
  }

  /** The arguments of `log1p` for one log feature, one per wallet. */
  function LogArguments(bases: seq<Base>, f: LogFeature): (args: seq<real>)
    requires |bases| > 0
    ensures |args| == |bases|
    ensures forall i :: 0 <= i < |bases| ==> args[i] - SourceOf(bases[i], f) == ShiftOf(bases, f)
    ensures f == LogNet ==> forall i :: 0 <= i < |bases| ==> args[i] >= EPS
  {
    var shift := ShiftOf(bases, f);
    assert f == LogNet ==> forall i :: 0 <= i < |bases| ==> Min(NetFlows(bases)) <= NetFlows(bases)[i];
    seq(|bases|, i requires 0 <= i < |bases| => SourceOf(bases[i], f) + shift)
  }

  function Log1pAll(args: seq<real>, log1p: real -> real): (ys: seq<real>)
    ensures |ys| == |args|
    ensures forall i :: 0 <= i < |args| ==> ys[i] == log1p(args[i])
  {
    seq(|args|, i requires 0 <= i < |args| => log1p(args[i]))
  }

  /**
   * `clip(upper=quantile(0.99))`: nothing ends above the 99th percentile,
   * values at or below it are untouched, and the largest result is the
   * percentile itself.
   */
  function Winsorise(xs: seq<real>): (ys: seq<real>)
    requires |xs| > 0
    ensures |ys| == |xs|
    ensures forall i :: 0 <= i < |xs| ==> ys[i] <= Quantile(xs, 0.99) && ys[i] <= xs[i]
    ensures forall i :: 0 <= i < |xs| && xs[i] <= Quantile(xs, 0.99) ==> ys[i] == xs[i]
    ensures Max(ys) == Quantile(xs, 0.99)
  {
    var p99 := Quantile(xs, 0.99);
    CappedMax(xs, p99);
    CapAt(xs, p99)
  }

  /** Each value above `cap` replaced by `cap`. */
  function CapAt(xs: seq<real>, cap: real): (ys: seq<real>)
    ensures |ys| == |xs|
    ensures forall i :: 0 <= i < |xs| ==> ys[i] == if xs[i] > cap then cap else xs[i]
  {
    seq(|xs|, i requires 0 <= i < |xs| => if xs[i] > cap then cap else xs[i])
  }

  /** Capping at a level no higher than the largest value makes that level the new largest value. */
  lemma CappedMax(xs: seq<real>, cap: real)
    requires |xs| > 0 && cap <= Max(xs)
    ensures Max(CapAt(xs, cap)) == cap
  {
    var ys := CapAt(xs, cap);
    var top :| 0 <= top < |xs| && xs[top] == Max(xs);
    assert ys[top] == cap;
    assert Max(ys) in ys;
  }

  /** The uncapped log column: `log1p` of each shifted base value. */
  function RawLogColumn(bases: seq<Base>, f: LogFeature, log1p: real -> real): (raw: seq<real>)
    requires |bases| > 0
    ensures |raw| == |bases|
    ensures forall i :: 0 <= i < |bases| ==> raw[i] == log1p(SourceOf(bases[i], f) + ShiftOf(bases, f))
  {
    Log1pAll(LogArguments(bases, f), log1p)
  }

  /**
   * One winsorised log column: each uncapped log value clipped from above
   * at the uncapped column's 99th percentile, which is the new maximum.
   */
  function LogColumn(bases: seq<Base>, f: LogFeature, log1p: real -> real): (col: seq<real>)
    requires |bases| > 0
    ensures |col| == |bases|
    ensures var raw := RawLogColumn(bases, f, log1p);
            forall i :: 0 <= i < |bases| ==>
              col[i] == if raw[i] > Quantile(raw, 0.99) then Quantile(raw, 0.99) else raw[i]
    ensures Max(col) == Quantile(RawLogColumn(bases, f, log1p), 0.99)
  {
    Winsorise(RawLogColumn(bases, f, log1p))
  }

  /**
   * Each value of a log column is the uncapped log value, capped at the
   * uncapped column's 99th percentile.
   */
  lemma LogColumnCapped(bases: seq<Base>, f: LogFeature, log1p: real -> real)
    requires |bases| > 0
    ensures var raw := RawLogColumn(bases, f, log1p);
            var col := LogColumn(bases, f, log1p);
            forall i :: 0 <= i < |bases| ==>
              col[i] <= Quantile(raw, 0.99) && col[i] <= raw[i]
              && (raw[i] <= Quantile(raw, 0.99) ==> col[i] == raw[i])
  {
  }

  function BasesOf(table: seq<FeatureRow>): (bs: seq<Base>)
    ensures |bs| == |table|
    ensures forall i :: 0 <= i < |table| ==> bs[i] == table[i].base
  {
    seq(|table|, i requires 0 <= i < |table| => table[i].base)
  }

  /** The log features of the `i`-th wallet. */
  function LogsAt(bases: seq<Base>, log1p: real -> real, i: nat): Logs
    requires 0 <= i < |bases|
  {
    Logs(LogColumn(bases, LogNet, log1p)[i], LogColumn(bases, LogStd, log1p)[i],
         LogColumn(bases, LogAge, log1p)[i], LogColumn(bases, LogDays, log1p)[i],
         LogColumn(bases, LogGap, log1p)[i], LogColumn(bases, LogFreq, log1p)[i])
  }

  lemma LogsAtColumns(bases: seq<Base>, log1p: real -> real, i: nat, f: LogFeature)
    requires 0 <= i < |bases|
    ensures LogOf(LogsAt(bases, log1p, i), f) == LogColumn(bases, f, log1p)[i]
  {
    match f
    case LogNet =>
    case LogStd =>
    case LogAge =>
    case LogDays =>
    case LogGap =>
    case LogFreq =>
  }

  /** The base features of each wallet, in wallet order. */
  function WalletBases(ledger: seq<Entry>, sqrt: real -> real): (bs: seq<Base>)
    ensures |bs| == |Wallets(ledger)|
    ensures forall i :: 0 <= i < |bs| ==>
              |RowsOf(ledger, Wallets(ledger)[i])| > 0 && bs[i] == BaseOf(RowsOf(ledger, Wallets(ledger)[i]), sqrt)
  {
    var ws := Wallets(ledger);
    assert forall i :: 0 <= i < |ws| ==> ws[i] in ws;
    seq(|ws|, i requires 0 <= i < |ws| => BaseOf(RowsOf(ledger, ws[i]), sqrt))
  }

  /** The log features of every wallet, row by row. */
  function LogRows(bases: seq<Base>, log1p: real -> real): (ls: seq<Logs>)
    ensures |ls| == |bases|
    ensures forall f: LogFeature, i :: 0 <= i < |bases| ==> LogOf(ls[i], f) == LogColumn(bases, f, log1p)[i]
  {
    var ls := seq(|bases|, i requires 0 <= i < |bases| => LogsAt(bases, log1p, i));
    assert forall f: LogFeature, i :: 0 <= i < |bases| ==> LogOf(ls[i], f) == LogColumn(bases, f, log1p)[i] by {
      forall f: LogFeature, i | 0 <= i < |bases| {
        LogsAtColumns(bases, log1p, i, f);
      }
    }
    ls
  }

  /** Rows pairing each wallet with its base features and its log features. */
  function Tabulate(ws: seq<string>, bases: seq<Base>, logs: seq<Logs>): (table: seq<FeatureRow>)
    requires |ws| == |bases| == |logs|
    ensures |table| == |ws|
    ensures BasesOf(table) == bases
    ensures forall i :: 0 <= i < |table| ==> table[i] == FeatureRow(ws[i], bases[i], logs[i])
  {
    var table := seq(|ws|, i requires 0 <= i < |ws| => FeatureRow(ws[i], bases[i], logs[i]));
    assert BasesOf(table) == bases;
    table
  }

  /** The feature table of a ledger: one row per wallet, in ascending wallet order. */
  function EngineerFeatures(ledger: seq<Entry>, log1p: real -> real, sqrt: real -> real): (table: seq<FeatureRow>)
    ensures |table| == 0 <==> |ledger| == 0
    ensures |table| == |Wallets(ledger)|
    ensures forall i :: 0 <= i < |table| ==> table[i].wallet == Wallets(ledger)[i]
    ensures BasesOf(table) == WalletBases(ledger, sqrt)
    ensures |table| > 0 ==> forall f: LogFeature, i :: 0 <= i < |table| ==>
              LogOf(table[i].logs, f) == LogColumn(BasesOf(table), f, log1p)[i]
  {
    if |ledger| == 0 then []
    else
      var ws := Wallets(ledger);
      assert ledger[0].wallet in ws;
      var bases := WalletBases(ledger, sqrt);
      Tabulate(ws, bases, LogRows(bases, log1p))
  }

  /** Each row's base features are computed from exactly that wallet's ledger rows. */
  lemma FeatureRowsOfWallets(ledger: seq<Entry>, log1p: real -> real, sqrt: real -> real)
    ensures var table := EngineerFeatures(ledger, log1p, sqrt);
            forall i :: 0 <= i < |table| ==>
              |RowsOf(ledger, table[i].wallet)| > 0 && table[i].base == BaseOf(RowsOf(ledger, table[i].wallet), sqrt)
  {
    var table := EngineerFeatures(ledger, log1p, sqrt);
    forall i | 0 <= i < |table|
      ensures |RowsOf(ledger, table[i].wallet)| > 0 && table[i].base == BaseOf(RowsOf(ledger, table[i].wallet), sqrt)
    {
      assert table[i].base == BasesOf(table)[i] == WalletBases(ledger, sqrt)[i];
    }
  }

  /** The net-flow log always has an argument of at least EPS, whatever the flows' signs. */
  lemma NetLogArgumentPositive(table: seq<FeatureRow>)
    requires |table| > 0
    ensures forall i :: 0 <= i < |table| ==> LogArguments(BasesOf(table), LogNet)[i] >= EPS
  {
  }

  /**
   * Every log feature of the table lies at or below the 99th percentile of
   * its uncapped column, and equals the uncapped value when that was not above it.
   */
  lemma LogFeaturesCapped(ledger: seq<Entry>, log1p: real -> real, sqrt: real -> real, f: LogFeature)
    requires |ledger| > 0
    ensures var table := EngineerFeatures(ledger, log1p, sqrt);
            var raw := RawLogColumn(BasesOf(table), f, log1p);
            forall i :: 0 <= i < |table| ==>
              LogOf(table[i].logs, f) <= Quantile(raw, 0.99)
              && (raw[i] <= Quantile(raw, 0.99) ==> LogOf(table[i].logs, f) == raw[i])
  {
    var table := EngineerFeatures(ledger, log1p, sqrt);
    LogColumnCapped(BasesOf(table), f, log1p);
  }
}
