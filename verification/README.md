# Credit-score pipeline, modelled in Dafny

A model of the batch pipeline that scores blockchain wallets from their
lending-protocol history (deposits, borrows, repayments, withdrawals,
liquidations). It has three stages and two small helpers.

- **Normaliser** (`load_transactions`, module `Loader`). Turns the decoded
  per-category record lists of every input file into one ledger:
  - one row per transaction, or two for a liquidation;
  - the wallet address taken from the category's own reference field;
  - the timestamp unit guessed per batch;
  - incomplete rows dropped, the rest sorted by time, de-duplicated and given lower-case wallets.
- **Feature engine** (`engineer_features`, module `Features`). Folds the ledger
  per wallet, in ascending wallet order, into fourteen base features. It then
  derives six `log1p` features, each capped at its own 99th percentile.
- **Scorer** (`calculate_scores`, module `Scoring`). In order, it:
  1. validates the weights;
  2. selects the model features the table carries;
  3. takes their quantile-scaled values and inverts the "more is worse" ones;
  4. averages each group (health, trust, risk) and mixes the groups with the weights;
  5. applies the liquidation (×0.2) and low-repayment (×0.5) overrides;
  6. rounds half to even to a 0-100 score and sorts from the highest score down.
- **Weight parser** (`parse_weights`, module `Weights`). Parses the `key=value,...`
  command-line weights. A later key overrides an earlier one.
- **Sensitivity verdict** (`jaccard` and the stability rule, module
  `Sensitivity`). Computes the Jaccard similarity of two leaderboards. The
  leaderboard is "stable" when both alternative weightings keep the
  similarity above 0.8.

Supporting modules:
- `Common`: `Option`, `Result`, and a JSON value type.
- `Text`: Python's `lower`, `rstrip`, `strip`, `split`, and string ordering.
- `Sorting`: an insertion sort by a real-valued key.
- `Stats`: sum, mean, min/max, `nunique`, median, and pandas' linearly
  interpolated `quantile`.

Floating-point numbers are modelled as reals. Three library functions are
parameters with nothing assumed of them: `log1p`, the square root behind
`std()`, and the text-to-number conversions (`pd.to_numeric`, `float`).

The empty-input path follows the code. An empty ledger gives a feature table
with no columns at all (`pd.DataFrame()`), so the scorer raises its
"No features found" error rather than returning an empty result
(`Scoring.EmptyLedgerHasNoFeatures`).

## Model

| member | source | states |
|---|---|---|
| Loader.Classify | src/zeru_credit_score/loader.py:51 | `liquidates` and `repays` are the two categories handled specially; every other name is a plain category |
| Loader.NonNull | src/zeru_credit_score/loader.py:94 | a cell is present exactly when it is not null, and then it is the cell |
| Loader.IdOf | src/zeru_credit_score/loader.py:54 | a wallet is extracted exactly when the reference is an object whose `id` is a string, and it is that `id` |
| Loader.AssetOf | src/zeru_credit_score/loader.py:39-40 | an asset object becomes its `symbol`, any other value passes through unchanged |
| Loader.PresentTimestamps | src/zeru_credit_score/loader.py:48-49 | holds exactly the timestamps of the batch that `to_numeric` turns into numbers |
| Loader.UnitOf | src/zeru_credit_score/loader.py:78-81 | milliseconds exactly when the batch has a numeric timestamp and its maximum exceeds 10^12; otherwise seconds, including for an all-null batch |
| Loader.TimestampOf | src/zeru_credit_score/loader.py:78-81 | a row has a timestamp exactly when its raw timestamp is numeric; the millisecond value is the floor of the raw value for unit "ms" and of 1000 times it for unit "s" |
| Loader.Row | src/zeru_credit_score/loader.py:36-46 | a row's hash, asset and amount come from the renamed record columns and its timestamp is the record's converted timestamp; its action, wallet and relation are the ones the category supplies |
| Loader.ActionName | src/zeru_credit_score/loader.py:37 | the category name with all trailing `s` removed: a prefix of the name, not ending in `s`, followed in the name only by `s` |
| Loader.StandardActionNames | src/zeru_credit_score/loader.py:37 | `deposits`, `borrows`, `repays`, `withdraws` become `deposit`, `borrow`, `repay`, `withdraw` |
| Loader.RepayRelation | src/zeru_credit_score/loader.py:69-70 | `self_pay` exactly when the payer cell equals the extracted wallet (a null never does), else `third_party_pay` |
| Loader.ExtractLiquidation | src/zeru_credit_score/loader.py:51-65 | a liquidation record yields a `liquidator_action` row for the liquidator and a `liquidated_event` row for the user; both have relation `none` and the same hash, timestamp, amount and asset |
| Loader.WalletOf | src/zeru_credit_score/loader.py:67-68 | with an `account` column the wallet is the reference's `id`; without one it is the record's own `wallet` cell when that is a string |
| Loader.PlainBatch | src/zeru_credit_score/loader.py:66-81 | one row per record, with the stripped category name, the wallet of `WalletOf` (from `account`, else the record's `wallet`), the record's converted timestamp, asset and amount, and the repayment relation for `repays` (`none` otherwise); the batch has a wallet column when it has `account` or `wallet` |
| Loader.LiquidationBatch | src/zeru_credit_score/loader.py:51-65 | all liquidator rows (only when the `liquidator` column exists), then all liquidated-user rows (only when `user` exists), the i-th row of each half from the i-th record; the batch always counts as having a wallet column |
| Loader.Halves | src/zeru_credit_score/loader.py:64 | `pd.concat([liq_df, ld_df])`: the kept first half, then the kept second half, each in record order |
| Loader.LoadCategory | src/zeru_credit_score/loader.py:31-83 | empty or non-list values add nothing; a `repays` category with neither `account` nor `wallet` raises; a category without `asset`, or a `liquidates` category with neither side, is skipped; a kept category without a timestamp raises; a category with both `blockTimestamp` and `timestamp` raises before any of these; each case is stated in both directions; a kept batch is the liquidation batch for `liquidates` and the plain batch otherwise |
| Loader.LoadFile | src/zeru_credit_score/loader.py:31-83 | a file succeeds exactly when every category of it does; otherwise its error is the one of the first raising category; it adds at most one batch per category |
| Loader.LoadFiles | src/zeru_credit_score/loader.py:20-83 | the files succeed exactly when every file does; otherwise the error is the one of the first raising file |
| Loader.Assemble | src/zeru_credit_score/loader.py:85-102 | raises exactly when no batch was collected or a required column is in no batch; otherwise returns a time-sorted ledger with lower-case wallets and no transaction hash twice (line 98 as written) |
| Loader.Normalise | src/zeru_credit_score/loader.py:12-102 | the no-data error occurs exactly when the files yield no batch; every ledger returned is time-sorted, has lower-case wallets and holds no transaction hash twice |
| Loader.TimestampUnitIgnored | src/zeru_credit_score/loader.py:14 | the `ts_unit` argument never changes the result, because the unit is always guessed per batch |
| Loader.NormaliseContents | src/zeru_credit_score/loader.py:88-102 | every ledger row is a complete input row with its wallet lower-cased; every transaction hash of a complete row appears; the row kept for a hash has the earliest timestamp among the complete rows with that hash |
| Loader.FinishContents | src/zeru_credit_score/loader.py:94-102 | the same three facts, keyed on the hash, for the null filter, sort, de-duplication and lower-casing applied to any rows |
| Loader.CompleteRows | src/zeru_credit_score/loader.py:94 | the null filter keeps exactly the rows with wallet, hash, timestamp, amount and asset all present |
| Loader.Dedup | src/zeru_credit_score/loader.py:98 | the result has no key twice and exactly the keys of the input |
| Loader.DedupKeepsFirst | src/zeru_credit_score/loader.py:98 | every row kept is the first row of the input with its key (`keep="first"`) |
| Loader.DedupKeepsOrder | src/zeru_credit_score/loader.py:96-98 | de-duplicating a time-sorted sequence leaves it time-sorted |
| Loader.EarliestSurvives | src/zeru_credit_score/loader.py:96-98 | in a time-sorted sequence, the row kept for a key has the earliest timestamp of that key |
| Loader.DedupOfAnySortedArrangement | src/zeru_credit_score/loader.py:96-98 | for any time-sorted arrangement the unstable sort may produce, de-duplication keeps one row per key of the complete rows, each a complete row, with the earliest timestamp for its key |
| Loader.LowerWallets | src/zeru_credit_score/loader.py:100-101 | each row is unchanged except that its wallet is lower-cased |
| Loader.LowerWalletsKeeps | src/zeru_credit_score/loader.py:100-102 | lower-casing keeps key uniqueness and time order, and makes every wallet lower-case |
| Loader.AllRowsFilteredIsNotAnError | src/zeru_credit_score/loader.py:85-94 | if batches were collected but no row survives the null filter, the result is an empty ledger, not the no-data error |
| Loader.FinishAsWritten | src/zeru_credit_score/loader.py:94-102 | as written (key: the hash alone): a time-sorted ledger with lower-case wallets and no hash twice |
| Loader.Finish | src/zeru_credit_score/loader.py:94-102 | with the corrected key (hash and action): a time-sorted ledger with lower-case wallets and no (hash, action) pair twice |
| Loader.LiquidationRowsSorted | src/zeru_credit_score/loader.py:51-65 | the two complete rows of a liquidation record share their hash, differ in action, and sort with the liquidator row first |
| Loader.LiquidationLosesOneSide | src/zeru_credit_score/loader.py:96-98 | de-duplicating by hash alone keeps exactly one of a liquidation record's two rows, in whichever order the sort leaves them |
| Loader.LiquidatedEventDroppedAsWritten | src/zeru_credit_score/loader.py:94-102 | as written, a ledger built from one liquidation record holds only the liquidator's row |
| Loader.LiquidationKeepsBothSides | src/zeru_credit_score/loader.py:51-65 | de-duplicating by hash and action keeps both the `liquidator_action` row and the `liquidated_event` row, each with its own lower-cased wallet |
| Text.Lower | src/zeru_credit_score/loader.py:101 | lower-casing maps each character and yields a lower-case string of the same length |
| Text.LowerFixesLowercase | src/zeru_credit_score/loader.py:101 | lower-casing an already lower-case string leaves it unchanged |
| Text.RStrip | src/zeru_credit_score/loader.py:37 | the longest prefix that does not end in the stripped character |
| Text.TrimStartSpec | src/zeru_credit_score/main.py:21-23 | the result is a suffix that does not start with white space, and only white space was removed |
| Text.TrimEndSpec | src/zeru_credit_score/main.py:21-23 | the result is a prefix that does not end with white space, and only white space was removed |
| Text.StripSpec | src/zeru_credit_score/main.py:21-23 | `strip()` removes exactly the leading and trailing white space |
| Text.Split | src/zeru_credit_score/main.py:18 | `split(",")` always yields at least one piece; no piece holds the separator; joining the pieces gives back the input |
| Text.SplitJoin | src/zeru_credit_score/main.py:18 | splitting undoes joining separator-free pieces |
| Text.SplitFirst | src/zeru_credit_score/main.py:21 | `split("=", 1)` gives the text before the first `=` and the text after it |
| Text.LessTotal | src/zeru_credit_score/features.py:20 | the wallet ordering used by `groupby` orders any two different strings |
| Text.LessTransitive | src/zeru_credit_score/features.py:20 | the wallet ordering is transitive |
| Sorting.SortBy | src/zeru_credit_score/loader.py:96 | the sort returns a rearrangement (same multiset) in ascending key order |
| Stats.Quantile | src/zeru_credit_score/features.py:79 | `quantile(q)` lies between the smallest and the largest value |
| Stats.Interpolate | src/zeru_credit_score/features.py:79 | the linearly interpolated quantile lies between the two sorted neighbours of position q·(n-1), and equals (1 − f)·s[lo] + f·s[lo+1] for the fractional part f of that position; at the last position it is the maximum |
| Stats.Lerp | src/zeru_credit_score/features.py:79 | the point a fraction t of the way from a to b is (1 − t)·a + t·b, and lies in [a, b] |
| Stats.InterpolateAtRank | src/zeru_credit_score/features.py:79 | at a position that is a whole rank k, the interpolated quantile is the k-th sorted value |
| Stats.QuantileAtRank | src/zeru_credit_score/features.py:79 | for n > 1 values, `quantile(k/(n-1))` is the k-th smallest value, for every rank k |
| Stats.Median | src/zeru_credit_score/features.py:60-64 | the median of a sorted sample is its middle value for an odd count and the mean of its two middle values for an even count |
| Stats.Mean | src/zeru_credit_score/scoring.py:53 | the mean lies between the smallest and the largest value, and as many copies of it as there are values add up to their sum |
| Stats.DistinctCount | src/zeru_credit_score/features.py:37-39 | `nunique` is at most the number of values, and at least 1 when there are any |
| Features.ActionSumIsMaskedSum | src/zeru_credit_score/features.py:23-26 | a wallet's sum for one action (the groupby sum, unstacked with fill value 0) is the total of its `amountUSD` column after zeroing the rows of every other action |
| Features.ActionSumAbsent | src/zeru_credit_score/features.py:23-26 | a sum over an action the wallet never performed is 0 (`unstack(fill_value=0)`) |
| Features.ActionSumNonNegative | src/zeru_credit_score/features.py:23-26 | sums of non-negative amounts are non-negative |
| Features.RepaymentRatio | src/zeru_credit_score/features.py:28-32 | the ratio is 1 when less than EPS was borrowed; otherwise it is repaid / (borrowed + EPS) when that is at most 1, and exactly 1 when repaid is at least borrowed + EPS; it is never above 1 and not negative for non-negative repayments |
| Features.HealthFactor | src/zeru_credit_score/features.py:34-35 | the health factor times (borrowed + EPS) gives the net collateral flow |
| Features.LiquidatedHashes | src/zeru_credit_score/features.py:37-39 | a hash is listed exactly when some `liquidated_event` row of the wallet carries it; the list is empty exactly when there is no such row |
| Features.AccountAgeDays | src/zeru_credit_score/features.py:42-44 | the whole number of days spanned by first and last transaction: d days ≤ span < d + 1 days |
| Features.Day | src/zeru_credit_score/features.py:46-47 | the calendar day containing the instant |
| Features.GapHours | src/zeru_credit_score/features.py:57-61 | one non-negative gap per consecutive pair of sorted timestamps, in hours |
| Features.MedianGapHours | src/zeru_credit_score/features.py:57-65 | non-negative, and 0 with fewer than two transactions |
| Features.SquaredDeviations | src/zeru_credit_score/features.py:55 | each squared deviation is non-negative, and zero exactly when the value equals the mean |
| Features.SampleVariance | src/zeru_credit_score/features.py:55 | the n-1 sample variance is non-negative, and 0 for constant amounts |
| Features.AmountStd | src/zeru_credit_score/features.py:55 | 0 for a single transaction (NaN filled); otherwise the square root of the sample variance |
| Features.TxFrequency | src/zeru_credit_score/features.py:66 | frequency times active days is the transaction count; zero days count as one |
| Features.BaseOf | src/zeru_credit_score/features.py:20-66 | the fourteen base features of one wallet, with their mutual bounds (for example 1 ≤ active days ≤ tx count, ever_liquidated = liquidation_count > 0, frequency ≥ 1); the repayment ratio, health factor, frequency, account age, amount std and median gap are those of their own definitions applied to the wallet's sums and counts |
| Features.BaseOfCounts | src/zeru_credit_score/features.py:37-54 | liquidation_count is the number of different hashes among the wallet's `liquidated_event` rows, asset_diversity the number of different assets, unique_active_days the number of different calendar days |
| Features.InsertWallet | src/zeru_credit_score/features.py:20 | inserting a new wallet keeps the list strictly ascending and adds exactly that wallet |
| Features.Wallets | src/zeru_credit_score/features.py:20-21 | the group keys are the distinct wallets of the ledger, strictly ascending |
| Features.RowsOf | src/zeru_credit_score/features.py:20 | a wallet's group holds exactly its ledger rows, and is non-empty for a wallet of the ledger |
| Features.LogArguments | src/zeru_credit_score/features.py:69-78 | each `log1p` argument is the base value plus the column's shift; for the net flow every argument is at least EPS |
| Features.NetLogArgumentPositive | src/zeru_credit_score/features.py:70 | shifting by minus the minimum net flow keeps every net-flow argument at least EPS |
| Features.Winsorise | src/zeru_credit_score/features.py:79-80 | no value ends above the 99th percentile; values at or below it are unchanged; the new maximum is the percentile itself |
| Features.RawLogColumn | src/zeru_credit_score/features.py:77-78 | each uncapped log value is `log1p` of the shifted base value |
| Features.LogColumn | src/zeru_credit_score/features.py:77-80 | each log feature is its uncapped value clipped from above at the uncapped column's 99th percentile, and that percentile is the column's new maximum |
| Features.LogColumnCapped | src/zeru_credit_score/features.py:77-80 | each log feature is at most both the uncapped value and the uncapped column's 99th percentile, and equals the uncapped value when that is within the percentile |
| Features.EngineerFeatures | src/zeru_credit_score/features.py:10-84 | empty exactly for an empty ledger; one row per distinct wallet in ascending order; the base features are the per-wallet bases; each log feature is its column's capped value |
| Features.FeatureRowsOfWallets | src/zeru_credit_score/features.py:20-66 | each row's base features are computed from exactly that wallet's ledger rows, of which there is at least one |
| Features.LogFeaturesCapped | src/zeru_credit_score/features.py:69-81 | every log feature of the table is at most the 99th percentile of its uncapped column, and unchanged below it |
| Scoring.Present | src/zeru_credit_score/scoring.py:28 | keeps exactly the names that are columns, and no more names than it was given |
| Scoring.PresentInOrder | src/zeru_credit_score/scoring.py:28 | from distinct names, the kept names are distinct and in the order of the given list |
| Scoring.Feats | src/zeru_credit_score/scoring.py:28 | the selected features are exactly the model features the table carries |
| Scoring.QuantileCount | src/zeru_credit_score/scoring.py:37 | `max(2, min(100, n // 10))`: between 2 and 100, exactly n // 10 whenever that lies in [2, 100], 2 below 30 wallets, 100 from 1000 |
| Scoring.ScalerInput | src/zeru_credit_score/scoring.py:37-40 | the scaler is fitted with that quantile count on the selected feature columns, one row per wallet |
| Scoring.Oriented | src/zeru_credit_score/scoring.py:13 | negative features are inverted (o + v = 1), the others pass through; values in [0, 1] stay in [0, 1] |
| Scoring.GroupValues | src/zeru_credit_score/scoring.py:51-53 | one value per group member the table carries, in the group's order: the member's scaled value from its own column, inverted for "more is worse" features |
| Scoring.GroupScore | src/zeru_credit_score/scoring.py:51-53 | 0 for a group with no selected feature; otherwise the mean of its values: as many copies of the score as there are values add up to their sum, and it lies between the least and the greatest of them |
| Scoring.GroupScoreInUnit | src/zeru_credit_score/scoring.py:45-53 | with scaled values in [0, 1], each group score is in [0, 1] |
| Scoring.WeightedBounds | src/zeru_credit_score/scoring.py:56-60 | with non-negative weights, the mix of scores in [0, 1] lies between 0 and the weights' sum |
| Scoring.MixBounds | src/zeru_credit_score/scoring.py:56-60 | a non-negative combination of values in [0, 1] lies between 0 and the sum of its coefficients |
| Scoring.Overridden | src/zeru_credit_score/scoring.py:61-65 | a wallet that was never liquidated and has a repayment ratio of at least 0.8 keeps its raw score |
| Scoring.OverrideFactors | src/zeru_credit_score/scoring.py:64-65 | liquidation alone scales by 0.2, low repayment alone by 0.5, both by 0.1 |
| Scoring.OverridesOnlyLower | src/zeru_credit_score/scoring.py:64-65 | the overrides never raise a non-negative raw score or make it negative |
| Scoring.Clip | src/zeru_credit_score/scoring.py:67 | `clip(0, 1)` lies in [0, 1], leaves values in [0, 1] unchanged, and sends the rest to the nearer bound |
| Scoring.RoundHalfEven | src/zeru_credit_score/scoring.py:67 | `round()` gives an integer within 0.5, and an even one at a tie |
| Scoring.RoundHalfEvenUnique | src/zeru_credit_score/scoring.py:67 | any integer within 0.5 that is even at a tie is the rounded value |
| Scoring.RoundHalfEvenMonotone | src/zeru_credit_score/scoring.py:67 | rounding preserves order |
| Scoring.ScoreOf | src/zeru_credit_score/scoring.py:67 | the score is an integer in [0, 100] within 0.5 of the clipped raw score times 100 |
| Scoring.ScoreMonotone | src/zeru_credit_score/scoring.py:67 | a higher raw score never gets a lower score |
| Scoring.ScoreExtremes | src/zeru_credit_score/scoring.py:67 | raw scores ≤ 0 score 0; raw scores ≥ 1 score 100 |
| Scoring.ScoreRow | src/zeru_credit_score/scoring.py:51-67 | a row's health, trust and risk scores are the group scores of its scaled values; its raw score is the weighted mix after the liquidation and repayment overrides, read from the row's own `ever_liquidated` and `repayment_ratio`; its score is the rounded, clipped raw score |
| Scoring.ScoreRows | src/zeru_credit_score/scoring.py:51-67 | one scored row per input row, in input order, each carrying its input row and a score in [0, 100] |
| Scoring.Ranked | src/zeru_credit_score/scoring.py:68 | `sort_values("score", ascending=False)`: a rearrangement of the scored rows with non-increasing scores |
| Scoring.RearrangedScores | src/zeru_credit_score/scoring.py:68 | a sorted rearrangement has the same elements, non-increasing scores, and the same score range |
| Scoring.CalculateScores | src/zeru_credit_score/scoring.py:24-68 | each error occurs exactly under its condition, checked in source order: invalid weights, no features, no samples, missing override column; on success, one result per input row, sorted from the highest score down, with scores in [0, 100] |
| Scoring.CalculateScoresKeepsRows | src/zeru_credit_score/scoring.py:51-68 | with valid weights, features, rows and both override columns the scorer succeeds, and its result is a rearrangement of the per-row scores: every input row scored exactly once |
| Scoring.RearrangementKeepsRows | src/zeru_credit_score/scoring.py:27-68 | any rearrangement of the per-row scores, such as the scorer's output, holds every input row and no other |
| Scoring.RawScoreBounds | src/zeru_credit_score/scoring.py:51-65 | with non-negative weights, 0 ≤ raw score ≤ unpenalised mix ≤ weights' sum |
| Scoring.FeatureValues | src/zeru_credit_score/features.py:20-80 | a feature row has a value in exactly the twenty feature columns |
| Scoring.ToTable | src/zeru_credit_score/features.py:14-16 | the feature table as the scorer sees it: rectangular, with no columns when empty |
| Scoring.EmptyLedgerHasNoFeatures | src/zeru_credit_score/scoring.py:28-30 | scoring the feature table of an empty ledger with valid weights fails with the no-features error |
| Scoring.NonEmptyFeatureTableScores | src/zeru_credit_score/scoring.py:24-30 | a non-empty feature table carries every model feature in group order, and with valid weights always scores |
| Weights.ParsePieces | src/zeru_credit_score/main.py:18-25 | succeeds exactly when every piece has `=` and a parsable value; otherwise it reports the first bad piece, with the raw key and value text |
| Weights.ParsedSize | src/zeru_credit_score/main.py:23 | a parse has at most one entry per piece |
| Weights.ParsedKeys | src/zeru_credit_score/main.py:21-23 | the keys of a parse are exactly the pieces' stripped keys |
| Weights.LastPieceWins | src/zeru_credit_score/main.py:23 | when no later piece has the same key, that piece's value is the key's value: a later duplicate overrides |
| Weights.ParseWeights | src/zeru_credit_score/main.py:14-26 | a non-string spec is rejected; a string is accepted exactly when every comma-separated piece is, a rejected string has a first bad piece, and the keys of an accepted one are exactly its pieces' stripped keys |
| Weights.EmptySpecRejected | src/zeru_credit_score/main.py:18-20 | the empty spec is one empty piece, rejected for lacking `=` |
| Weights.ParseJoined | src/zeru_credit_score/main.py:18 | parsing comma-joined comma-free pieces parses exactly those pieces |
| Weights.DefaultWeights | src/zeru_credit_score/main.py:34-38 | the default spec parses to health 0.45, trust 0.35, risk 0.20, which the scorer accepts |
| Weights.PieceParses | src/zeru_credit_score/main.py:21-23 | an unpadded `key=value` piece has key `key` and the value `float` reads from `value` |
| Sensitivity.Jaccard | src/zeru_credit_score/scripts/run_sensitivity.py:12-13 | the similarity lies in [0, 1], is 0 exactly when the sets share nothing (including two empty sets), and otherwise times the size of the union is the size of the intersection |
| Sensitivity.JaccardSymmetric | src/zeru_credit_score/scripts/run_sensitivity.py:12-13 | the similarity does not depend on the order of its arguments |
| Sensitivity.JaccardOne | src/zeru_credit_score/scripts/run_sensitivity.py:12-13 | the similarity is 1 exactly for two equal non-empty sets |
| Sensitivity.JaccardOfEmpty | src/zeru_credit_score/scripts/run_sensitivity.py:13 | two empty leaderboards have similarity 0 |
| Sensitivity.LeaderboardVerdict | src/zeru_credit_score/scripts/run_sensitivity.py:60-63 | stable exactly when both similarities exceed 0.8 |
| Sensitivity.VerdictOfLeaderboards | src/zeru_credit_score/scripts/run_sensitivity.py:56-63 | unchanged non-empty leaderboards are stable; a leaderboard disjoint from the base makes the verdict sensitive |

## Findings

| source | as written | input that shows it | evidently intended | confidence | as-written member | corrected member |
|---|---|---|---|---|---|---|
| src/zeru_credit_score/loader.py:98 | `drop_duplicates(subset=["tx_hash"])` runs after lines 51-65 have split each liquidation record into a `liquidator_action` row and a `liquidated_event` row that share the record's hash, so one of the two is always dropped. Under a stable order it is the `liquidated_event` row, so `liquidation_count` and `ever_liquidated` (features.py:37-40) stay 0 and the ×0.2 override (scoring.py:64) never applies | one `liquidates` record with liquidator `{"id": "A"}`, user `{"id": "B"}`, a hash, a timestamp, `amountUSD` and `asset`: the ledger holds only A's `liquidator_action` row, and B has no row | de-duplicate repeated transactions while keeping both sides of a liquidation, i.e. by hash and action type | high for "one side is dropped"; which side depends on the sort; not executed | Loader.LiquidatedEventDroppedAsWritten | Loader.LiquidationKeepsBothSides |

`Loader.FinishAsWritten` is line 98 as written, keyed on the hash alone.
`Loader.LiquidationLosesOneSide` shows that any order the unstable sort may
produce loses one side. `Loader.Normalise` and `Loader.Assemble` model the
code as written, so their ledgers hold one row per hash. `Loader.Finish` is the
corrected final step: it keys de-duplication on (hash, action type). The
feature and scoring modules take any ledger, so their properties hold for
either.

## Left out

- File listing, the `.json` filter, file reading and JSON decoding (loader.py:19-29): the model starts from the decoded files, one sequence of (category, records) pairs per file. A file that fails to decode is skipped by the source, so it simply does not appear in the model.
- Logging (every `logger` call, and logging_config.py): it has no effect on results.
- The scikit-learn `QuantileTransformer` fit and transform, and the joblib load and dump of the scaler (scoring.py:32-43): the scaler's output matrix is an input of `Scoring.CalculateScores`, and `Scoring.ScalerInput` states what the scaler is fitted on.
- Scoring.CalculateScores: requires the scaled matrix to have one row per wallet and one column per selected feature, as the scaler's output always has. Scikit-learn's rejection of a table with no rows is modelled as the `NoSamples` error.
- argparse, the CSV output, `--topk` and `head(topk)`, and the sensitivity script's driver loop (main.py:28-85, run_sensitivity.py:15-54): the parse function, the Jaccard similarity and the verdict rule are modelled; the plumbing around them is not.
- `log1p`, `sqrt` and the text-to-number conversions are uninterpreted parameters, and IEEE floating point is modelled by reals. The 0.8, 1e-6 and EPS comparisons are therefore exact; NaN and infinities do not arise.
- Features.HealthFactor: when borrowed + EPS is exactly 0 (only possible with negative amounts), the model gives 0; pandas gives ±infinity for a non-zero net flow.
- The final `fillna(0)` (features.py:84): after the per-feature fills above it, no value the model computes is NaN, so it has no counterpart.
- Loader.IdOf: an `id` that is not a JSON string counts as missing; pandas would keep it and `.str.lower()` would turn it into NaN, only later. The same holds for a record's own `wallet` cell taken by `Loader.WalletOf`.
- Loader.AsRecord: a list item that is not an object is read as a record with no fields. pandas behaves differently for such lists: with an object first and a scalar later it raises; with a scalar first it builds a frame with a column named `0`, which has no `asset` column, so the category is skipped.
- Two hash columns in one batch (`hash` and `transactionHash`, or either with `tx_hash`): the rename gives the frame two `tx_hash` columns. What follows depends on the other batches. When another batch has different columns, `pd.concat` at loader.py:88 raises on the duplicate column label. When the columns match (for example when it is the only batch), the later steps work on both columns. The model does neither: it keeps one hash per row, taking `hash` first, then `transactionHash`, then `tx_hash`. Two timestamp columns are modelled: they raise `DuplicateTimestamp` (`Loader.LoadCategory`).
- Timestamps are whole epoch milliseconds: the sub-millisecond part of a seconds timestamp is truncated, and the nanosecond range limit of pandas datetimes is not modelled.
- Text.Lower lower-cases ASCII letters only; wallet addresses are hexadecimal.
- The sorts at loader.py:96 and scoring.py:68 are not stable in pandas; the model uses a stable insertion sort. The de-duplication properties are proved for every time-sorted arrangement (`Loader.DedupOfAnySortedArrangement`), and the scorer's contract fixes the order only up to equal scores.
- Loader.Normalise: the second sort at loader.py:102 is not applied; the ledger is already in timestamp order, and the unstable re-sort may only permute rows with equal timestamps.
