/**
 * The ledger normaliser (`load_transactions` in loader.py): turns the parsed
 * per-category record lists of every input file into one ledger of
 * transactions, sorted by time, one row per transaction hash, with
 * lower-case wallet addresses.
 *
 * The model starts after JSON decoding: each file is the sequence of its
 * (category name, records value) pairs in key order. A record is a JSON
 * object; a key the record lacks reads as null, exactly like the NaN pandas
 * puts in that cell of the data frame.
 */
module Loader {
  import opened Common
  import opened Text
  import opened Sorting
  import Stats

  type Record = map<string, Json>

  /** One decoded input file: category name to records value, in key order. */
  type RawFile = seq<(string, Json)>

  /** A caller-forced timestamp unit; accepted by `Normalise` and never consulted. */
  datatype TsUnit = Seconds | Millis

  /** How a repayment relates its payer to the borrower. */
  datatype Relation = NoRelation | SelfPay | ThirdPartyPay

  /** The categories whose records are normalised differently. */
  datatype Category = Liquidation | Repayment | Plain(name: string)

  function Classify(name: string): (c: Category)
    ensures c.Liquidation? <==> name == "liquidates"
    ensures c.Repayment? <==> name == "repays"
    ensures c.Plain? ==> c.name == name
  {
    if name == "liquidates" then Liquidation
    else if name == "repays" then Repayment
    else Plain(name)
  }

  /** A ledger row before the completeness filter: any cell may be null. */
  datatype Draft = Draft(
    wallet: Option<string>,
    txHash: Option<Json>,
    timestamp: Option<int>,
    actionType: string,
    amount: Option<real>,
    asset: Option<Json>,
    relation: Relation)

  /** The rows one category of one file contributes, and which optional canonical columns it has. */
  datatype Batch = Batch(rows: seq<Draft>, hasWallet: bool, hasTxHash: bool, hasAmount: bool)

  /** A ledger entry: a row that passed the completeness filter. */
  datatype Entry = Entry(
    wallet: string,
    txHash: Json,
    timestamp: int,
    actionType: string,
    amount: real,
    asset: Json,
    relation: Relation)

  datatype LoadError =
    | NoData                         // no category of any file produced a batch
    | MissingAccount(category: string)   // a repays category with neither an `account` nor a `wallet` column
    | MissingTimestamp(category: string) // a kept category without a timestamp column
    | DuplicateTimestamp(category: string) // both `blockTimestamp` and `timestamp`: `pd.to_numeric` gets a frame
    | MissingColumns(names: seq<string>) // a canonical column no batch carries

  const MillisThreshold: real := 1000000000000.0
  const LiquidatorAction := "liquidator_action"
  const LiquidatedEvent := "liquidated_event"

  // ---------------------------------------------------------------------
  // Cells

  /** A list item as a record; an item that is not an object has no fields. */
  function AsRecord(item: Json): Record
  {
    if item.JObj? then item.fields else map[]
  }

  /** Whether some record of the batch has `key`, i.e. the data frame has that column. */
  predicate HasColumn(recs: seq<Record>, key: string) {
    exists i :: 0 <= i < |recs| && key in recs[i]
  }

  function NonNull(cell: Json): (r: Option<Json>)
    ensures r.Some? <==> cell != JNull
    ensures r.Some? ==> r.value == cell
  {
    if cell == JNull then None else Some(cell)
  }

  /** `x.get('id') if isinstance(x, dict) else None`, for string ids. */
  function IdOf(ref: Json): (w: Option<string>)
    ensures w.Some? <==> ref.JObj? && Field(ref.fields, "id").JStr?
    ensures w.Some? ==> w.value == Field(ref.fields, "id").s
  {
    if ref.JObj? && Field(ref.fields, "id").JStr? then Some(Field(ref.fields, "id").s) else None
  }

  /** Asset flattening: an object becomes its `symbol`, anything else passes through; null stays null. */
  function AssetOf(cell: Json): (a: Option<Json>)
    ensures cell.JObj? ==> a == NonNull(Field(cell.fields, "symbol"))
    ensures !cell.JObj? ==> a == NonNull(cell)
  {
    match cell
    case JObj(m) => NonNull(Field(m, "symbol"))
    case _ => NonNull(cell)
  }

  /** `pd.to_numeric(..., errors="coerce")`: numbers stay, strings go through `parseNum`, the rest is null. */
  function NumOf(cell: Json, parseNum: string -> Option<real>): Option<real>
  {
    match cell
    case JNum(n) => Some(n)
    case JStr(s) => parseNum(s)
    case _ => None
  }

  /** The transaction hash after renaming `hash` / `transactionHash` to `tx_hash`. */
  function TxHashCell(r: Record): Json
  {
    if "hash" in r then r["hash"]
    else if "transactionHash" in r then r["transactionHash"]
    else Field(r, "tx_hash")
  }

  function HasTxHash(recs: seq<Record>): bool {
    HasColumn(recs, "hash") || HasColumn(recs, "transactionHash") || HasColumn(recs, "tx_hash")
  }

  /** The timestamp after renaming `blockTimestamp` to `timestamp`. */
  function TimestampCell(r: Record): Json
  {
    if "blockTimestamp" in r then r["blockTimestamp"] else Field(r, "timestamp")
  }

  function HasTimestamp(recs: seq<Record>): bool {
    HasColumn(recs, "blockTimestamp") || HasColumn(recs, "timestamp")
  }

  /**
   * Renaming `blockTimestamp` gives the frame a second `timestamp` column,
   * so `df["timestamp"]` is a frame and `pd.to_numeric` raises (line 49).
   */
  predicate DuplicateTimestamps(recs: seq<Record>) {
    HasColumn(recs, "blockTimestamp") && HasColumn(recs, "timestamp")
  }

  function RawTs(r: Record, parseNum: string -> Option<real>): Option<real>
  {
    NumOf(TimestampCell(r), parseNum)
  }

  // ---------------------------------------------------------------------
  // Timestamp unit

  /** The numeric timestamps of a batch, nulls skipped (the values `ts.max()` looks at). */
  function PresentTimestamps(recs: seq<Record>, parseNum: string -> Option<real>): (ts: seq<real>)
    ensures forall x :: x in ts ==> exists i :: 0 <= i < |recs| && RawTs(recs[i], parseNum) == Some(x)
    ensures forall i :: 0 <= i < |recs| && RawTs(recs[i], parseNum).Some? ==> RawTs(recs[i], parseNum).value in ts
  {
    if |recs| == 0 then []
    else
      var rest := PresentTimestamps(recs[1..], parseNum);
      assert forall i :: 1 <= i < |recs| ==> recs[i] == recs[1..][i - 1];
      match RawTs(recs[0], parseNum)
      case Some(x) => [x] + rest
      case None => rest
  }

  /**
   * The batch's unit: milliseconds when some timestamp exceeds 10^12, else
   * seconds (an all-null batch has a NaN maximum, which compares false).
   */
  function UnitOf(recs: seq<Record>, parseNum: string -> Option<real>): (u: TsUnit)
    ensures var ts := PresentTimestamps(recs, parseNum);
            u == Millis <==> |ts| > 0 && Stats.Max(ts) > MillisThreshold
  {
    var ts := PresentTimestamps(recs, parseNum);
    if exists i | 0 <= i < |recs| :: RawTs(recs[i], parseNum).Some? && RawTs(recs[i], parseNum).value > MillisThreshold
    then
      Millis
    else
      assert |ts| > 0 ==> Stats.Max(ts) in ts;
      Seconds
  }

  /** `pd.to_datetime(ts, unit=u)` as whole epoch milliseconds. */
  function ToMillis(n: real, u: TsUnit): int
  {
    if u == Millis then n.Floor else (n * 1000.0).Floor
  }

  function TimestampOf(r: Record, u: TsUnit, parseNum: string -> Option<real>): (t: Option<int>)
    ensures t.Some? <==> RawTs(r, parseNum).Some?
    ensures t.Some? && u == Millis ==>
              t.value as real <= RawTs(r, parseNum).value < t.value as real + 1.0
    ensures t.Some? && u == Seconds ==>
              t.value as real <= RawTs(r, parseNum).value * 1000.0 < t.value as real + 1.0
  {
    match RawTs(r, parseNum)
    case Some(n) => Some(ToMillis(n, u))
    case None => None
  }

  // ---------------------------------------------------------------------
  // One extraction function per category

  /** The columns every category shares, with the category-specific wallet, action and relation. */
  function Row(r: Record, u: TsUnit, parseNum: string -> Option<real>,
               actionType: string, wallet: Option<string>, relation: Relation): (d: Draft)
    ensures d.actionType == actionType && d.wallet == wallet && d.relation == relation
    ensures d.txHash == NonNull(TxHashCell(r))
    ensures d.timestamp == TimestampOf(r, u, parseNum)
    ensures d.timestamp.Some? <==> RawTs(r, parseNum).Some?
    ensures d.asset == AssetOf(Field(r, "asset"))
    ensures d.amount == NumOf(Field(r, "amountUSD"), parseNum)
  {
    Draft(wallet, NonNull(TxHashCell(r)), TimestampOf(r, u, parseNum), actionType,
          NumOf(Field(r, "amountUSD"), parseNum), AssetOf(Field(r, "asset")), relation)
  }

  /** The category name with every trailing `s` removed (`action.rstrip("s")`). */
  function ActionName(name: string): (a: string)
    ensures |a| <= |name| && a == name[..|a|]
    ensures |a| > 0 ==> a[|a| - 1] != 's'
    ensures forall i :: |a| <= i < |name| ==> name[i] == 's'
  {
    RStrip(name, 's')
  }

  /**
   * The wallet of a row outside `liquidates`: the id of the `account`
   * reference when the frame has an `account` column, otherwise the
   * record's own `wallet` cell, kept when it is a string.
   */
  function WalletOf(r: Record, fromAccount: bool): (w: Option<string>)
    ensures fromAccount ==> w == IdOf(Field(r, "account"))
    ensures !fromAccount ==> (w.Some? <==> Field(r, "wallet").JStr?)
    ensures !fromAccount && w.Some? ==> w.value == Field(r, "wallet").s
  {
    if fromAccount then IdOf(Field(r, "account"))
    else if Field(r, "wallet").JStr? then Some(Field(r, "wallet").s)
    else None
  }

  /** deposits, borrows, withdraws and any other non-special category. */
  function ExtractPlain(name: string, r: Record, u: TsUnit, parseNum: string -> Option<real>, fromAccount: bool): Draft
  {
    Row(r, u, parseNum, ActionName(name), WalletOf(r, fromAccount), NoRelation)
  }

  /** `self_pay` exactly when the payer cell is the extracted wallet (a null never compares equal). */
  function RepayRelation(wallet: Option<string>, payer: Json): (rel: Relation)
    ensures rel != NoRelation
    ensures rel == SelfPay <==> wallet.Some? && payer == JStr(wallet.value)
  {
    if wallet.Some? && payer == JStr(wallet.value) then SelfPay else ThirdPartyPay
  }

  /** repays: the relation compares `payer` with the row's wallet. */
  function ExtractRepay(r: Record, u: TsUnit, parseNum: string -> Option<real>, fromAccount: bool): Draft
  {
    var w := WalletOf(r, fromAccount);
    Row(r, u, parseNum, ActionName("repays"), w, RepayRelation(w, Field(r, "payer")))
  }

  /** liquidates: one row for the liquidator, one for the liquidated user. */
  function ExtractLiquidation(r: Record, u: TsUnit, parseNum: string -> Option<real>): (pair: (Draft, Draft))
    ensures pair.0.actionType == LiquidatorAction && pair.0.wallet == IdOf(Field(r, "liquidator"))
    ensures pair.1.actionType == LiquidatedEvent && pair.1.wallet == IdOf(Field(r, "user"))
    ensures pair.0.relation == NoRelation && pair.1.relation == NoRelation
    ensures pair.0.txHash == pair.1.txHash == NonNull(TxHashCell(r))
    ensures pair.0.timestamp == pair.1.timestamp && pair.0.amount == pair.1.amount && pair.0.asset == pair.1.asset
  {
    (Row(r, u, parseNum, LiquidatorAction, IdOf(Field(r, "liquidator")), NoRelation),
     Row(r, u, parseNum, LiquidatedEvent, IdOf(Field(r, "user")), NoRelation))
  }

  // ---------------------------------------------------------------------
  // One category of one file

  /**
   * The batch of a non-liquidation category: one row per record, carrying
   * the stripped category name and the wallet taken from `account`.
   */
  function PlainBatch(cat: Category, name: string, recs: seq<Record>, parseNum: string -> Option<real>): (b: Batch)
    requires !cat.Liquidation? && cat == Classify(name)
    ensures |b.rows| == |recs|
    ensures forall i :: 0 <= i < |recs| ==>
              && b.rows[i].actionType == ActionName(name)
              && b.rows[i].wallet == WalletOf(recs[i], HasColumn(recs, "account"))
              && b.rows[i].txHash == NonNull(TxHashCell(recs[i]))
              && b.rows[i].timestamp == TimestampOf(recs[i], UnitOf(recs, parseNum), parseNum)
              && b.rows[i].asset == AssetOf(Field(recs[i], "asset"))
              && b.rows[i].amount == NumOf(Field(recs[i], "amountUSD"), parseNum)
              && (cat.Repayment? ==> b.rows[i].relation == RepayRelation(b.rows[i].wallet, Field(recs[i], "payer")))
              && (cat.Plain? ==> b.rows[i].relation == NoRelation)
    ensures b.hasWallet == (HasColumn(recs, "account") || HasColumn(recs, "wallet"))
  {
    var u := UnitOf(recs, parseNum);
    var fromAccount := HasColumn(recs, "account");
    var rows := seq(|recs|, i requires 0 <= i < |recs| =>
                  if cat.Repayment? then ExtractRepay(recs[i], u, parseNum, fromAccount)
                  else ExtractPlain(name, recs[i], u, parseNum, fromAccount));
    Batch(rows, fromAccount || HasColumn(recs, "wallet"), HasTxHash(recs), HasColumn(recs, "amountUSD"))
  }

  /**
   * The batch of a liquidation category: all liquidator rows (when the
   * `liquidator` column exists), then all liquidated-user rows (when `user`
   * exists); the i-th row of each half comes from the i-th record.
   */
  function LiquidationBatch(recs: seq<Record>, u: TsUnit, parseNum: string -> Option<real>): (b: Batch)
    ensures var first := if HasColumn(recs, "liquidator") then |recs| else 0;
            && |b.rows| == first + (if HasColumn(recs, "user") then |recs| else 0)
            && (forall i :: 0 <= i < first ==> b.rows[i] == ExtractLiquidation(recs[i], u, parseNum).0)
            && (forall i :: 0 <= i < |b.rows| - first ==> b.rows[first + i] == ExtractLiquidation(recs[i], u, parseNum).1)
    ensures b.hasWallet
  {
    var rows := Halves(recs, r => ExtractLiquidation(r, u, parseNum), HasColumn(recs, "liquidator"), HasColumn(recs, "user"));
    Batch(rows, true, HasTxHash(recs), HasColumn(recs, "amountUSD"))
  }

  /**
   * The first component of `f` for every item (when `first` holds), then
   * the second component for every item (when `second` holds).
   */
  function Halves<A, D>(xs: seq<A>, f: A -> (D, D), first: bool, second: bool): (rows: seq<D>)
    ensures var k := if first then |xs| else 0;
            && |rows| == k + (if second then |xs| else 0)
            && (forall i :: 0 <= i < k ==> rows[i] == f(xs[i]).0)
            && (forall i :: 0 <= i < |rows| - k ==> rows[k + i] == f(xs[i]).1)
  {
    var k := if first then |xs| else 0;
    var n := k + (if second then |xs| else 0);
    seq(n, i requires 0 <= i < n => if i < k then f(xs[i]).0 else f(xs[i - k]).1)
  }

  function Records(items: seq<Json>): (recs: seq<Record>)
    ensures |recs| == |items|
  {
    seq(|items|, i requires 0 <= i < |items| => AsRecord(items[i]))
  }

  /**
   * One category of one file. Empty or non-list values contribute nothing;
   * a category with both timestamp columns raises first; a liquidation
   * category with neither side, or any category without an `asset` column,
   * is skipped; a repays category without `account`, or a kept category
   * without a timestamp column, raises.
   */
  function LoadCategory(name: string, value: Json, parseNum: string -> Option<real>): (res: Result<Option<Batch>, LoadError>)
    ensures res.Err? ==> !res.error.NoData?
    ensures (!value.JArr? || |value.items| == 0) ==> res == Ok(None)
    ensures value.JArr? && |value.items| > 0 ==>
              var recs := Records(value.items);
              && (res == Err(DuplicateTimestamp(name)) <==> DuplicateTimestamps(recs))
              && (res == Ok(None) <==>
                    !DuplicateTimestamps(recs)
                    && (name != "repays" || HasColumn(recs, "account") || HasColumn(recs, "wallet"))
                    && (!HasColumn(recs, "asset")
                        || (name == "liquidates" && !HasColumn(recs, "liquidator") && !HasColumn(recs, "user"))))
              && (res.Err? <==>
                    DuplicateTimestamps(recs)
                    || (name == "repays" && !HasColumn(recs, "account") && !HasColumn(recs, "wallet"))
                    || ((name != "repays" || HasColumn(recs, "account") || HasColumn(recs, "wallet"))
                        && HasColumn(recs, "asset")
                        && (name != "liquidates" || HasColumn(recs, "liquidator") || HasColumn(recs, "user"))
                        && !HasTimestamp(recs)))
              && (res.Ok? && res.value.Some? ==>
                    res.value.value == if Classify(name).Liquidation?
                                       then LiquidationBatch(recs, UnitOf(recs, parseNum), parseNum)
                                       else PlainBatch(Classify(name), name, recs, parseNum))
  {
    if !value.JArr? || |value.items| == 0 then Ok(None)
    else
      var recs := Records(value.items);
      if DuplicateTimestamps(recs) then Err(DuplicateTimestamp(name))
      else match Classify(name)
      case Liquidation =>
        if !HasColumn(recs, "liquidator") && !HasColumn(recs, "user") then Ok(None)
        else if !HasColumn(recs, "asset") then Ok(None)
        else if !HasTimestamp(recs) then Err(MissingTimestamp(name))
        else Ok(Some(LiquidationBatch(recs, UnitOf(recs, parseNum), parseNum)))
      case Repayment =>
        if !HasColumn(recs, "account") && !HasColumn(recs, "wallet") then Err(MissingAccount(name))
        else if !HasColumn(recs, "asset") then Ok(None)
        else if !HasTimestamp(recs) then Err(MissingTimestamp(name))
        else Ok(Some(PlainBatch(Repayment, name, recs, parseNum)))
      case Plain(_) =>
        if !HasColumn(recs, "asset") then Ok(None)
        else if !HasTimestamp(recs) then Err(MissingTimestamp(name))
        else Ok(Some(PlainBatch(Classify(name), name, recs, parseNum)))
  }

  /** The batches of one file, in category order; the first raising category aborts. */
  function LoadFile(file: RawFile, parseNum: string -> Option<real>): (res: Result<seq<Batch>, LoadError>)
    ensures res.Err? ==> !res.error.NoData?
    ensures res.Ok? <==> forall i :: 0 <= i < |file| ==> LoadCategory(file[i].0, file[i].1, parseNum).Ok?
    ensures res.Err? ==> exists i :: 0 <= i < |file| && LoadCategory(file[i].0, file[i].1, parseNum) == Err(res.error)
                                   && forall j :: 0 <= j < i ==> LoadCategory(file[j].0, file[j].1, parseNum).Ok?
    ensures res.Ok? ==> |res.value| <= |file|
  {
    if |file| == 0 then Ok([])
    else
      var b :- LoadCategory(file[0].0, file[0].1, parseNum);
      var rest :- LoadFile(file[1..], parseNum);
      Ok((if b.Some? then [b.value] else []) + rest)
  }

  /** The batches of all files, in file order; the first raising file aborts. */
  function LoadFiles(files: seq<RawFile>, parseNum: string -> Option<real>): (res: Result<seq<Batch>, LoadError>)
    ensures res.Err? ==> !res.error.NoData?
    ensures res.Ok? <==> forall i :: 0 <= i < |files| ==> LoadFile(files[i], parseNum).Ok?
    ensures res.Err? ==> exists i :: 0 <= i < |files| && LoadFile(files[i], parseNum) == Err(res.error)
                                   && forall j :: 0 <= j < i ==> LoadFile(files[j], parseNum).Ok?
  {
    if |files| == 0 then Ok([])
    else
      var first :- LoadFile(files[0], parseNum);
      var rest :- LoadFiles(files[1..], parseNum);
      Ok(first + rest)
  }

  // ---------------------------------------------------------------------
  // Final assembly

  function Concat(batches: seq<Batch>): seq<Draft>
  {
    if |batches| == 0 then [] else batches[0].rows + Concat(batches[1..])
  }

  predicate IsComplete(d: Draft) {
    d.wallet.Some? && d.txHash.Some? && d.timestamp.Some? && d.amount.Some? && d.asset.Some?
  }

  function ToEntry(d: Draft): Entry
    requires IsComplete(d)
  {
    Entry(d.wallet.value, d.txHash.value, d.timestamp.value, d.actionType, d.amount.value, d.asset.value, d.relation)
  }

  /** The null filter: the complete rows, in order, as entries. */
  function CompleteRows(ds: seq<Draft>): (es: seq<Entry>)
    ensures |es| <= |ds|
    ensures forall e :: e in es <==> exists d :: d in ds && IsComplete(d) && ToEntry(d) == e
  {
    if |ds| == 0 then []
    else
      var rest := CompleteRows(ds[1..]);
      assert forall d :: d in ds <==> d == ds[0] || d in ds[1..];
      if IsComplete(ds[0]) then [ToEntry(ds[0])] + rest else rest
  }

  function TsKey(e: Entry): real { e.timestamp as real }

  /** What line 98 deduplicates by: the transaction hash alone. */
  function TxHash(e: Entry): Json { e.txHash }

  /**
   * What deduplication should go by: the hash and the action type, so that
   * the two rows of one liquidation, which share their hash, both stay.
   */
  function TxIdentity(e: Entry): (Json, string) { (e.txHash, e.actionType) }

  /** The keys of the rows of `s`. */
  function KeysOf<K>(s: seq<Entry>, key: Entry -> K): set<K>
  {
    set i | 0 <= i < |s| :: key(s[i])
  }

  predicate UniqueKeys<K(==)>(s: seq<Entry>, key: Entry -> K) {
    forall i, j :: 0 <= i < j < |s| ==> key(s[i]) != key(s[j])
  }

  /** No earlier row of `s` has the key of row `i`. */
  predicate FirstWithKey<K(==)>(s: seq<Entry>, key: Entry -> K, i: int)
    requires 0 <= i < |s|
  {
    forall j :: 0 <= j < i ==> key(s[j]) != key(s[i])
  }

  lemma KeysSnoc<K>(s: seq<Entry>, e: Entry, key: Entry -> K)
    ensures KeysOf(s + [e], key) == KeysOf(s, key) + {key(e)}
  {
    var r := s + [e];
    assert forall i :: 0 <= i < |s| ==> r[i] == s[i];
    assert r[|s|] == e;
  }

  /** `drop_duplicates(subset=..., keep="first")`: the rows whose key no earlier row has. */
  function Dedup<K(==)>(s: seq<Entry>, key: Entry -> K): (r: seq<Entry>)
    ensures UniqueKeys(r, key)
    ensures KeysOf(r, key) == KeysOf(s, key)
    decreases |s|
  {
    if |s| == 0 then []
    else
      var n := |s| - 1;
      var init := Dedup(s[..n], key);
      var last := s[n];
      assert s == s[..n] + [last];
      KeysSnoc(s[..n], last, key);
      if key(last) in KeysOf(init, key) then init
      else
        KeysSnoc(init, last, key);
        assert forall k :: 0 <= k < |init| ==> key(init[k]) in KeysOf(init, key);
        init + [last]
  }

  /** `e` is the first row of `s` with its key. */
  predicate FirstOf<K(==)>(s: seq<Entry>, key: Entry -> K, e: Entry) {
    exists i :: 0 <= i < |s| && s[i] == e && FirstWithKey(s, key, i)
  }

  /** Every row `Dedup` keeps is the first row of `s` with its key. */
  lemma {:induction false} DedupKeepsFirst<K>(s: seq<Entry>, key: Entry -> K)
    ensures forall k :: 0 <= k < |Dedup(s, key)| ==> FirstOf(s, key, Dedup(s, key)[k])
    decreases |s|
  {
    if |s| > 0 {
      var n := |s| - 1;
      var init := Dedup(s[..n], key);
      DedupKeepsFirst(s[..n], key);
      assert s == s[..n] + [s[n]];
      KeysSnoc(s[..n], s[n], key);
      forall k | 0 <= k < |init|
        ensures FirstOf(s, key, init[k])
      {
        assert FirstOf(s[..n], key, init[k]);
        var i :| 0 <= i < n && s[..n][i] == init[k] && FirstWithKey(s[..n], key, i);
        assert s[i] == init[k];
        assert FirstWithKey(s, key, i);
      }
      if key(s[n]) !in KeysOf(init, key) {
        assert FirstWithKey(s, key, n) by {
          forall j | 0 <= j < n
            ensures key(s[j]) != key(s[n])
          {
            assert key(s[j]) == key(s[..n][j]);
          }
        }
        var r := init + [s[n]];
        assert Dedup(s, key) == r;
        forall k | 0 <= k < |r|
          ensures FirstOf(s, key, r[k])
        {
          if k < |init| {
            assert r[k] == init[k];
          } else {
            assert r[k] == s[n];
          }
        }
      } else {
        assert Dedup(s, key) == init;
      }
    }
  }

  /** Deduplication keeps the order of the rows it keeps. */
  lemma {:induction false} DedupKeepsOrder<K>(s: seq<Entry>, key: Entry -> K)
    requires SortedBy(s, TsKey)
    ensures SortedBy(Dedup(s, key), TsKey)
    decreases |s|
  {
    if |s| > 0 {
      var n := |s| - 1;
      var init := Dedup(s[..n], key);
      DedupKeepsOrder(s[..n], key);
      DedupKeepsFirst(s[..n], key);
      if key(s[n]) !in KeysOf(init, key) {
        forall k | 0 <= k < |init|
          ensures TsKey(init[k]) <= TsKey(s[n])
        {
          assert FirstOf(s[..n], key, init[k]);
          var i :| 0 <= i < n && s[..n][i] == init[k] && FirstWithKey(s[..n], key, i);
          assert s[i] == init[k];
        }
        var r := init + [s[n]];
        assert Dedup(s, key) == r;
        assert forall i, j :: 0 <= i < j < |r| ==> TsKey(r[i]) <= TsKey(r[j]) by {
          forall i, j | 0 <= i < j < |r|
            ensures TsKey(r[i]) <= TsKey(r[j])
          {
            if j < |init| {
              assert r[i] == init[i] && r[j] == init[j];
            } else {
              assert r[i] == init[i] && r[j] == s[n];
            }
          }
        }
      }
    }
  }

  /** In a time-sorted sequence, the row `Dedup` keeps for a key has the earliest timestamp of that key. */
  lemma EarliestSurvives<K>(s: seq<Entry>, key: Entry -> K)
    requires SortedBy(s, TsKey)
    ensures forall k, j :: 0 <= k < |Dedup(s, key)| && 0 <= j < |s| && key(s[j]) == key(Dedup(s, key)[k]) ==>
                           Dedup(s, key)[k].timestamp <= s[j].timestamp
  {
    var r := Dedup(s, key);
    DedupKeepsFirst(s, key);
    forall k, j | 0 <= k < |r| && 0 <= j < |s| && key(s[j]) == key(r[k])
      ensures r[k].timestamp <= s[j].timestamp
    {
      assert FirstOf(s, key, r[k]);
      var i :| 0 <= i < |s| && s[i] == r[k] && FirstWithKey(s, key, i);
      if i <= j {
        assert TsKey(s[i]) <= TsKey(s[j]);
      }
    }
  }

  lemma KeysOfRearrangement<K>(p: seq<Entry>, c: seq<Entry>, key: Entry -> K)
    requires multiset(p) == multiset(c)
    ensures KeysOf(p, key) == KeysOf(c, key)
  {
    forall x | x in KeysOf(p, key)
      ensures x in KeysOf(c, key)
    {
      var i :| 0 <= i < |p| && key(p[i]) == x;
      assert p[i] in multiset(c);
      var j :| 0 <= j < |c| && c[j] == p[i];
    }
    forall x | x in KeysOf(c, key)
      ensures x in KeysOf(p, key)
    {
      var j :| 0 <= j < |c| && key(c[j]) == x;
      assert c[j] in multiset(p);
      var i :| 0 <= i < |p| && p[i] == c[j];
    }
  }

  /**
   * pandas' sort at line 96 is not stable, so which of several rows with the
   * same key and the same timestamp survives is not determined. Whatever
   * time-sorted arrangement `p` of the complete rows `c` the sort produces,
   * deduplicating it keeps exactly one row per key of `c`, each kept row is a
   * row of `c`, and it has the earliest timestamp among `c`'s rows with that key.
   */
  lemma DedupOfAnySortedArrangement<K>(c: seq<Entry>, p: seq<Entry>, key: Entry -> K)
    requires multiset(p) == multiset(c)
    requires SortedBy(p, TsKey)
    ensures UniqueKeys(Dedup(p, key), key) && SortedBy(Dedup(p, key), TsKey)
    ensures KeysOf(Dedup(p, key), key) == KeysOf(c, key)
    ensures forall k :: 0 <= k < |Dedup(p, key)| ==> Dedup(p, key)[k] in c
    ensures forall k, j :: 0 <= k < |Dedup(p, key)| && 0 <= j < |c| && key(c[j]) == key(Dedup(p, key)[k]) ==>
                           Dedup(p, key)[k].timestamp <= c[j].timestamp
  {
    var r := Dedup(p, key);
    KeysOfRearrangement(p, c, key);
    DedupKeepsFirst(p, key);
    DedupKeepsOrder(p, key);
    EarliestSurvives(p, key);
    forall k | 0 <= k < |r|
      ensures r[k] in c
    {
      assert FirstOf(p, key, r[k]);
      var i :| 0 <= i < |p| && p[i] == r[k] && FirstWithKey(p, key, i);
      assert p[i] in multiset(c);
    }
    forall k, j | 0 <= k < |r| && 0 <= j < |c| && key(c[j]) == key(r[k])
      ensures r[k].timestamp <= c[j].timestamp
    {
      assert c[j] in multiset(p);
      var j' :| 0 <= j' < |p| && p[j'] == c[j];
    }
  }

  /** `wallet.str.lower()` on every row. */
  function LowerWallets(s: seq<Entry>): (r: seq<Entry>)
    ensures |r| == |s|
    ensures forall i :: 0 <= i < |s| ==> r[i] == s[i].(wallet := Lower(s[i].wallet))
  {
    seq(|s|, i requires 0 <= i < |s| => s[i].(wallet := Lower(s[i].wallet)))
  }

  /** Time-sorted, with lower-case wallets and no key twice. */
  predicate LedgerShape<K(==)>(ledger: seq<Entry>, key: Entry -> K) {
    && UniqueKeys(ledger, key)
    && SortedBy(ledger, TsKey)
    && (forall i :: 0 <= i < |ledger| ==> IsLowercase(ledger[i].wallet))
  }

  /** What every ledger the normaliser returns satisfies: time-sorted, lower-case wallets, no transaction hash twice. */
  predicate LedgerInvariant(ledger: seq<Entry>) {
    LedgerShape(ledger, TxHash)
  }

  /** Lower-casing the wallets keeps every key that ignores the wallet, the timestamps and their order. */
  lemma LowerWalletsKeeps<K>(s: seq<Entry>, key: Entry -> K)
    requires UniqueKeys(s, key) && SortedBy(s, TsKey)
    requires forall e: Entry, w :: key(e.(wallet := w)) == key(e)
    ensures LedgerShape(LowerWallets(s), key)
  {
    var r := LowerWallets(s);
    assert forall i :: 0 <= i < |r| ==> key(r[i]) == key(s[i]) && TsKey(r[i]) == TsKey(s[i]);
  }

  /** Null filter, sort by timestamp, keep the first row of each key, lowercase. */
  function FinishBy<K(==)>(rows: seq<Draft>, key: Entry -> K): (ledger: seq<Entry>)
    requires forall e: Entry, w :: key(e.(wallet := w)) == key(e)
    ensures LedgerShape(ledger, key)
  {
    var sorted := SortBy(CompleteRows(rows), TsKey);
    DedupKeepsOrder(sorted, key);
    LowerWalletsKeeps(Dedup(sorted, key), key);
    LowerWallets(Dedup(sorted, key))
  }

  /** Lines 94-102 as written: one row per transaction hash. */
  function FinishAsWritten(rows: seq<Draft>): (ledger: seq<Entry>)
    ensures LedgerShape(ledger, TxHash)
  {
    FinishBy(rows, TxHash)
  }

  /** Lines 94-102 with deduplication by hash and action type: one row per (hash, action) pair. */
  function Finish(rows: seq<Draft>): (ledger: seq<Entry>)
    ensures LedgerShape(ledger, TxIdentity)
  {
    FinishBy(rows, TxIdentity)
  }

  /** The canonical columns a batch may lack. */
  datatype Column = WalletColumn | TxHashColumn | AmountColumn

  predicate Carries(b: Batch, c: Column) {
    match c
    case WalletColumn => b.hasWallet
    case TxHashColumn => b.hasTxHash
    case AmountColumn => b.hasAmount
  }

  /** Whether the concatenated frame has column `c`. */
  predicate SomeBatch(batches: seq<Batch>, c: Column) {
    exists i | 0 <= i < |batches| :: Carries(batches[i], c)
  }

  /**
   * Lines 85-102: fails when no batch was collected, or when a canonical
   * column is missing from every batch (the KeyErrors of lines 93 and 94);
   * otherwise the finished ledger, possibly empty.
   */
  function Assemble(batches: seq<Batch>): (res: Result<seq<Entry>, LoadError>)
    ensures res == Err(NoData) <==> |batches| == 0
    ensures res.Ok? <==> |batches| > 0 && SomeBatch(batches, AmountColumn)
                          && SomeBatch(batches, WalletColumn) && SomeBatch(batches, TxHashColumn)
    ensures res.Ok? ==> LedgerInvariant(res.value)
  {
    if |batches| == 0 then Err(NoData)
    else if !SomeBatch(batches, AmountColumn) then Err(MissingColumns(["amountUSD"]))
    else
      var missing := (if SomeBatch(batches, WalletColumn) then [] else ["wallet"])
                     + (if SomeBatch(batches, TxHashColumn) then [] else ["tx_hash"]);
      if |missing| > 0 then Err(MissingColumns(missing))
      else Ok(FinishAsWritten(Concat(batches)))
  }

  /** `load_transactions(data_dir, ts_unit)` from the decoded files onward. */
  function Normalise(files: seq<RawFile>, tsUnit: Option<TsUnit>, parseNum: string -> Option<real>): (res: Result<seq<Entry>, LoadError>)
    ensures res == Err(NoData) <==> LoadFiles(files, parseNum) == Ok([])
    ensures res.Ok? ==> LedgerInvariant(res.value)
  {
    var batches :- LoadFiles(files, parseNum);
    Assemble(batches)
  }

  // ---------------------------------------------------------------------
  // Properties of the whole normaliser

  /** The ts_unit argument never changes the outcome. */
  lemma TimestampUnitIgnored(files: seq<RawFile>, u1: Option<TsUnit>, u2: Option<TsUnit>, parseNum: string -> Option<real>)
    ensures Normalise(files, u1, parseNum) == Normalise(files, u2, parseNum)
  {
  }

  /**
   * What the ledger holds: each entry is a complete input row with its wallet
   * lower-cased; every transaction hash of a complete row is present; and
   * the entry kept for a hash has the earliest timestamp among the complete
   * rows with it, whichever time-sorted order the sort leaves them in.
   */
  lemma NormaliseContents(files: seq<RawFile>, tsUnit: Option<TsUnit>, parseNum: string -> Option<real>, batches: seq<Batch>)
    requires LoadFiles(files, parseNum) == Ok(batches)
    requires Normalise(files, tsUnit, parseNum).Ok?
    ensures var ledger := Normalise(files, tsUnit, parseNum).value;
            var c := CompleteRows(Concat(batches));
            && (forall k :: 0 <= k < |ledger| ==>
                  exists e :: e in c && ledger[k] == e.(wallet := Lower(e.wallet)))
            && KeysOf(ledger, TxHash) == KeysOf(c, TxHash)
            && (forall k, j :: 0 <= k < |ledger| && 0 <= j < |c| && TxHash(c[j]) == TxHash(ledger[k]) ==>
                  ledger[k].timestamp <= c[j].timestamp)
  {
    assert Normalise(files, tsUnit, parseNum) == Assemble(batches);
    assert Normalise(files, tsUnit, parseNum).value == FinishAsWritten(Concat(batches));
    FinishContents(Concat(batches));
  }

  /** Lower-casing the wallets does not change keys that ignore the wallet. */
  lemma LoweredKeys<K>(s: seq<Entry>, key: Entry -> K)
    requires forall e: Entry, w :: key(e.(wallet := w)) == key(e)
    ensures KeysOf(LowerWallets(s), key) == KeysOf(s, key)
  {
    var r := LowerWallets(s);
    assert forall k :: 0 <= k < |r| ==> key(r[k]) == key(s[k]);
  }

  lemma FinishContents(rows: seq<Draft>)
    ensures var ledger := FinishAsWritten(rows);
            var c := CompleteRows(rows);
            && (forall k :: 0 <= k < |ledger| ==>
                  exists e :: e in c && ledger[k] == e.(wallet := Lower(e.wallet)))
            && KeysOf(ledger, TxHash) == KeysOf(c, TxHash)
            && (forall k, j :: 0 <= k < |ledger| && 0 <= j < |c| && TxHash(c[j]) == TxHash(ledger[k]) ==>
                  ledger[k].timestamp <= c[j].timestamp)
  {
    var c := CompleteRows(rows);
    var p := SortBy(c, TsKey);
    var r := Dedup(p, TxHash);
    var ledger := FinishAsWritten(rows);
    assert ledger == LowerWallets(r);
    DedupOfAnySortedArrangement(c, p, TxHash);
    LoweredKeys(r, TxHash);
    forall k | 0 <= k < |ledger|
      ensures exists e :: e in c && ledger[k] == e.(wallet := Lower(e.wallet))
    {
      assert r[k] in c;
    }
  }

  /**
   * The two rows of a complete liquidation record, after the null filter and
   * the sort: the liquidator's first, as line 65 concatenates them, because
   * their timestamps are equal.
   */
  lemma LiquidationRowsSorted(r: Record, u: TsUnit, parseNum: string -> Option<real>)
    requires IsComplete(ExtractLiquidation(r, u, parseNum).0) && IsComplete(ExtractLiquidation(r, u, parseNum).1)
    ensures var pair := ExtractLiquidation(r, u, parseNum);
            var e0, e1 := ToEntry(pair.0), ToEntry(pair.1);
            && SortBy(CompleteRows([pair.0, pair.1]), TsKey) == [e0, e1]
            && e0.txHash == e1.txHash && e0.actionType != e1.actionType
  {
    var pair := ExtractLiquidation(r, u, parseNum);
    var e0, e1 := ToEntry(pair.0), ToEntry(pair.1);
    assert [pair.0, pair.1][1..] == [pair.1];
    assert CompleteRows([pair.1]) == [e1];
    assert CompleteRows([pair.0, pair.1]) == [e0, e1];
    assert [e0, e1][1..] == [e1];
    assert SortBy([e1], TsKey) == [e1];
    assert Insert(e0, [e1], TsKey) == [e0, e1];
  }

  /**
   * As written, deduplication by hash alone keeps one row of the two a
   * liquidation record yields, whichever order the unstable sort leaves
   * them in: one of the two wallets loses the row.
   */
  lemma LiquidationLosesOneSide(e0: Entry, e1: Entry, p: seq<Entry>)
    requires e0.txHash == e1.txHash
    requires multiset(p) == multiset([e0, e1])
    ensures |Dedup(p, TxHash)| == 1
    ensures Dedup(p, TxHash)[0] == e0 || Dedup(p, TxHash)[0] == e1
  {
    assert |p| == 2;
    assert p[0] in multiset([e0, e1]) && p[1] in multiset([e0, e1]);
    assert p[..1] == [p[0]];
    assert Dedup([p[0]], TxHash) == [p[0]];
    assert TxHash(p[1]) in KeysOf([p[0]], TxHash);
  }

  /**
   * With the pipeline's own stable ordering, the line 98 deduplication keeps
   * the liquidator's row and drops the liquidated user's `liquidated_event`,
   * so no ledger built from one liquidation record shows that the user
   * was liquidated.
   */
  lemma LiquidatedEventDroppedAsWritten(r: Record, u: TsUnit, parseNum: string -> Option<real>)
    requires IsComplete(ExtractLiquidation(r, u, parseNum).0) && IsComplete(ExtractLiquidation(r, u, parseNum).1)
    ensures var pair := ExtractLiquidation(r, u, parseNum);
            var ledger := FinishAsWritten([pair.0, pair.1]);
            && |ledger| == 1
            && ledger[0].actionType == LiquidatorAction
            && ledger[0].wallet == Lower(pair.0.wallet.value)
  {
    var pair := ExtractLiquidation(r, u, parseNum);
    var e0, e1 := ToEntry(pair.0), ToEntry(pair.1);
    LiquidationRowsSorted(r, u, parseNum);
    LiquidationLosesOneSide(e0, e1, [e0, e1]);
    assert [e0, e1][..1] == [e0];
    assert Dedup([e0, e1], TxHash) == [e0];
  }

  /**
   * Deduplicating by hash and action keeps both rows of a liquidation record:
   * the liquidator's `liquidator_action` and the user's `liquidated_event`.
   */
  lemma LiquidationKeepsBothSides(r: Record, u: TsUnit, parseNum: string -> Option<real>)
    requires IsComplete(ExtractLiquidation(r, u, parseNum).0) && IsComplete(ExtractLiquidation(r, u, parseNum).1)
    ensures var pair := ExtractLiquidation(r, u, parseNum);
            var ledger := Finish([pair.0, pair.1]);
            && |ledger| == 2
            && ledger[0].actionType == LiquidatorAction && ledger[0].wallet == Lower(pair.0.wallet.value)
            && ledger[1].actionType == LiquidatedEvent && ledger[1].wallet == Lower(pair.1.wallet.value)
  {
    var pair := ExtractLiquidation(r, u, parseNum);
    var e0, e1 := ToEntry(pair.0), ToEntry(pair.1);
    LiquidationRowsSorted(r, u, parseNum);
    assert [e0, e1][..1] == [e0];
    assert Dedup([e0], TxIdentity) == [e0];
    assert TxIdentity(e1) !in KeysOf([e0], TxIdentity);
    assert Dedup([e0, e1], TxIdentity) == [e0, e1];
  }

  /**
   * The fatal error needs an empty batch list: when batches were collected
   * but every row fails the null filter, the result is an empty ledger.
   */
  lemma AllRowsFilteredIsNotAnError(files: seq<RawFile>, tsUnit: Option<TsUnit>, parseNum: string -> Option<real>, batches: seq<Batch>)
    requires LoadFiles(files, parseNum) == Ok(batches)
    requires |batches| > 0
    requires SomeBatch(batches, AmountColumn) && SomeBatch(batches, WalletColumn) && SomeBatch(batches, TxHashColumn)
    requires forall d :: d in Concat(batches) ==> !IsComplete(d)
    ensures Normalise(files, tsUnit, parseNum) == Ok([])
  {
    NoCompleteRows(Concat(batches));
    var p := SortBy(CompleteRows(Concat(batches)), TsKey);
    assert |p| == 0;
    assert Dedup(p, TxHash) == [];
  }

  lemma {:induction false} NoCompleteRows(ds: seq<Draft>)
    requires forall d :: d in ds ==> !IsComplete(d)
    ensures CompleteRows(ds) == []
  {
    if |ds| > 0 {
      NoCompleteRows(ds[1..]);
    }
  }

  /** The action types of the five categories the input normally carries. */
  lemma StandardActionNames()
    ensures ActionName("deposits") == "deposit"
    ensures ActionName("borrows") == "borrow"
    ensures ActionName("repays") == "repay"
    ensures ActionName("withdraws") == "withdraw"
  {
    assert RStrip("deposit", 's') == "deposit";
    assert RStrip("borrow", 's') == "borrow";
    assert RStrip("repay", 's') == "repay";
    assert RStrip("withdraw", 's') == "withdraw";
  }
}
