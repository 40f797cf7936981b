/**
 The API listing of synced pools: pledge-backend/api/models/poolBases.go, on top of `PoolSync`.  The API reads
 the table through a struct of its own, whose tags name the columns again.
 */
module PoolListing {
  import opened Prelude
  import opened PoolSync
  import opened PoolSyncTheorems
  import opened PoolRowTheorems
  import opened PoolSummaryTheorems
  import T = TokenCache
  import E = TokenCacheEffects

  type Rows = map<PoolKey, map<Column, Value>>

  datatype QueryRow = QueryRow(poolId: nat, columns: map<Column, Value>)

  // ----- Columns by name -----

  /** The name of a column in the table and in the tags of the sync's struct. */
  function ColumnName(c: Column): string {
    match c
    case SettleTime => "settle_time"
    case EndTime => "end_time"
    case InterestRate => "interest_rate"
    case MaxSupply => "max_supply"
    case LendSupply => "lend_supply"
    case BorrowSupply => "borrow_supply"
    case MartgageRate => "martgage_rate"
    case LendToken => "lend_token"
    case LendTokenInfo => "lend_token_info"
    case BorrowToken => "borrow_token"
    case BorrowTokenInfo => "borrow_token_info"
    case PoolState => "state"
    case SpCoin => "sp_coin"
    case JpCoin => "jp_coin"
    case AutoLiquidateThreshold => "auto_liquidate_threshold"
    case LendTokenSymbol => "lend_token_symbol"
    case BorrowTokenSymbol => "borrow_token_symbol"
    case CreatedAt => "created_at"
    case UpdatedAt => "updated_at"
  }

  function Decimal(n: nat): (text: string)
    ensures text != "" && forall i :: 0 <= i < |text| ==> '0' <= text[i] <= '9'
  {
    (if n < 10 then "" else Decimal(n / 10)) + [('0' as int + n % 10) as char]
  }

  /** Read back digit by digit, it is the number; and it has no leading zero. */
  function Number(text: string): int {
    if text == "" then 0 else Number(text[..|text| - 1]) * 10 + (text[|text| - 1] as int - '0' as int)
  }

  lemma {:induction false} DecimalIsNumber(n: nat)
    ensures Number(Decimal(n)) == n
    ensures n > 0 ==> Decimal(n)[0] != '0'
    ensures Decimal(0) == "0"
  {
    if n >= 10 {
      DecimalIsNumber(n / 10);
      assert Decimal(n)[..|Decimal(n)| - 1] == Decimal(n / 10);
    } else {
      assert Decimal(n)[..0] == "";
    }
  }

  /** What a whole row offers under a column name; nothing is read from a null or missing column. */
  ghost function Offered(row: QueryRow, name: string): Value {
    if name == "pool_id" then Text(Decimal(row.poolId))
    else if exists c :: c in row.columns && ColumnName(c) == name then
      var c :| c in row.columns && ColumnName(c) == name;
      row.columns[c]
    else Blank
  }

  function ValueIn(row: QueryRow, c: Column): Value {
    if c in row.columns then row.columns[c] else Blank
  }

  lemma OfferedValue(row: QueryRow, c: Column)
    ensures Offered(row, ColumnName(c)) == ValueIn(row, c)
  {
    assert ColumnName(c) != "pool_id";
    assert forall d: Column :: ColumnName(d) == ColumnName(c) ==> d == c;
  }

  /** A tag reads a column of the sync, in every row, exactly when it has that column's name. */
  lemma TagReadsIff(name: string, c: Column)
    ensures (forall row :: Offered(row, name) == ValueIn(row, c)) <==> name == ColumnName(c)
  {
    if name == ColumnName(c) {
      forall row
        ensures Offered(row, name) == ValueIn(row, c)
      {
        OfferedValue(row, c);
      }
    } else {
      var row := QueryRow(0, map[c := Text("x")]);
      assert ValueIn(row, c) == Text("x");
      assert name == "pool_id" ==> '0' <= Decimal(0)[0] <= '9';
      assert Offered(row, name) != Text("x");
    }
  }

  // ----- The listing -----

  /** A row as the ORM scans it into the API's struct, the marshalled summaries still as stored. */
  datatype PoolBases = PoolBases(
    poolId: nat, autoLiquidateThreshold: string, borrowSupply: string, borrowToken: string,
    borrowTokenInfo: Value, endTime: string, interestRate: string, jpCoin: string, lendSupply: string,
    lendToken: string, lendTokenInfo: Value, martgageRate: string, maxSupply: string, settleTime: string,
    spCoin: string, state: string)

  datatype Summary = Summary(fee: string, logo: string, name: string, price: string)

  datatype PoolData = PoolData(
    poolId: nat, autoLiquidateThreshold: string, borrowSupply: string, borrowToken: string,
    borrowTokenInfo: Summary, endTime: string, interestRate: string, jpCoin: string, lendSupply: string,
    lendToken: string, lendTokenInfo: Summary, martgageRate: string, maxSupply: string, settleTime: string,
    spCoin: string, state: string)

  /** One element of the response. */
  datatype Item = Item(index: int, poolData: PoolData)

  function TextOf(v: Value): string {
    if v.Text? then v.text else ""
  }

  /** The struct with each field read from the column its tag names.  Two fields are tagged `pool_id`; whether
      the ORM fills the second one as well is `fillsTwice`. */
  ghost function Scanned(row: QueryRow, fillsTwice: bool): PoolBases {
    PoolBases(
      row.poolId,
      TextOf(Offered(row, "auto_liquidata_threshold")),
      TextOf(Offered(row, "borrow_supply")),
      if fillsTwice then TextOf(Offered(row, "pool_id")) else "",
      Offered(row, "borrow_token_info"),
      TextOf(Offered(row, "end_time")),
      TextOf(Offered(row, "interest_rate")),
      TextOf(Offered(row, "jp_coin")),
      TextOf(Offered(row, "lend_supply")),
      TextOf(Offered(row, "lend_token")),
      Offered(row, "lend_token_info"),
      TextOf(Offered(row, "martgage_rate")),
      TextOf(Offered(row, "max_supply")),
      TextOf(Offered(row, "settle_time")),
      TextOf(Offered(row, "sp_coin")),
      TextOf(Offered(row, "state")))
  }

  /** Unmarshalling into a fresh struct; what does not parse leaves it blank. */
  function Unmarshal(v: Value): Summary {
    if v.TokenJson? then Summary(v.fee, v.logo, v.name, v.price) else Summary("", "", "", "")
  }

  function ItemOf(v: PoolBases): Item {
    Item(v.poolId - 1, PoolData(
      v.poolId, v.autoLiquidateThreshold, v.borrowSupply, v.borrowToken, Unmarshal(v.borrowTokenInfo),
      v.endTime, v.interestRate, v.jpCoin, v.lendSupply, v.lendToken, Unmarshal(v.lendTokenInfo),
      v.martgageRate, v.maxSupply, v.settleTime, v.spCoin, v.state))
  }

  /** The loop of PoolBaseInfo over the rows found. */
  method PoolBaseInfo(poolBases: seq<PoolBases>) returns (res: seq<Item>)
    ensures |res| == |poolBases|
    ensures forall k :: 0 <= k < |res| ==> res[k] == ItemOf(poolBases[k])
  {
    res := [];
    for i := 0 to |poolBases|
      invariant |res| == i
      invariant forall k :: 0 <= k < i ==> res[k] == ItemOf(poolBases[k])
    {
      var v := poolBases[i];
      var borrowTokenInfo := Unmarshal(v.borrowTokenInfo);
      var lendTokenInfo := Unmarshal(v.lendTokenInfo);
      var poolData := PoolData(
        v.poolId, v.autoLiquidateThreshold, v.borrowSupply, v.borrowToken, borrowTokenInfo, v.endTime,
        v.interestRate, v.jpCoin, v.lendSupply, v.lendToken, lendTokenInfo, v.martgageRate, v.maxSupply,
        v.settleTime, v.spCoin, v.state);
      res := res + [Item(v.poolId - 1, poolData)];
    }
  }

  /** The entry carries the chain's values in the eleven text fields whose tags name the sync's columns. */
  predicate Lists(p: PoolData, info: BaseInfo) {
    && p.settleTime == info.settleTime
    && p.endTime == info.endTime
    && p.interestRate == info.interestRate
    && p.maxSupply == info.maxSupply
    && p.lendSupply == info.lendSupply
    && p.borrowSupply == info.borrowSupply
    && p.martgageRate == info.martgageRate
    && p.lendToken == info.lendToken
    && p.state == info.state
    && p.spCoin == info.spCoin
    && p.jpCoin == info.jpCoin
  }

  lemma HeldIsOffered(row: QueryRow, name: string, c: Column, text: string)
    requires name == ColumnName(c) && Holds(row.columns, c, text)
    ensures TextOf(Offered(row, name)) == text
  {
    OfferedValue(row, c);
  }

  lemma TermsAreScanned(row: QueryRow, info: BaseInfo, fillsTwice: bool)
    requires Shows(row.columns, info)
    ensures var p := Scanned(row, fillsTwice);
      && p.settleTime == info.settleTime
      && p.endTime == info.endTime
      && p.interestRate == info.interestRate
      && p.maxSupply == info.maxSupply
      && p.lendSupply == info.lendSupply
      && p.borrowSupply == info.borrowSupply
  {
    HeldIsOffered(row, "settle_time", SettleTime, info.settleTime);
    HeldIsOffered(row, "end_time", EndTime, info.endTime);
    HeldIsOffered(row, "interest_rate", InterestRate, info.interestRate);
    HeldIsOffered(row, "max_supply", MaxSupply, info.maxSupply);
    HeldIsOffered(row, "lend_supply", LendSupply, info.lendSupply);
    HeldIsOffered(row, "borrow_supply", BorrowSupply, info.borrowSupply);
  }

  lemma TokensAreScanned(row: QueryRow, info: BaseInfo, fillsTwice: bool)
    requires Shows(row.columns, info)
    ensures var p := Scanned(row, fillsTwice);
      && p.martgageRate == info.martgageRate
      && p.lendToken == info.lendToken
      && p.state == info.state
      && p.spCoin == info.spCoin
      && p.jpCoin == info.jpCoin
  {
    HeldIsOffered(row, "martgage_rate", MartgageRate, info.martgageRate);
    HeldIsOffered(row, "lend_token", LendToken, info.lendToken);
    HeldIsOffered(row, "state", PoolState, info.state);
    HeldIsOffered(row, "sp_coin", SpCoin, info.spCoin);
    HeldIsOffered(row, "jp_coin", JpCoin, info.jpCoin);
  }

  lemma ShownIsListed(row: QueryRow, info: BaseInfo, fillsTwice: bool)
    requires Shows(row.columns, info)
    ensures Lists(ItemOf(Scanned(row, fillsTwice)).poolData, info)
  {
    TermsAreScanned(row, info, fillsTwice);
    TokensAreScanned(row, info, fillsTwice);
  }

  lemma SummariesAreListed(row: QueryRow, fillsTwice: bool)
    ensures var p := ItemOf(Scanned(row, fillsTwice)).poolData;
      && p.lendTokenInfo == Unmarshal(ValueIn(row, LendTokenInfo))
      && p.borrowTokenInfo == Unmarshal(ValueIn(row, BorrowTokenInfo))
  {
    OfferedValue(row, LendTokenInfo);
    OfferedValue(row, BorrowTokenInfo);
  }

  /** Whatever the row holds, the listed threshold is that of the contract exactly when the contract's is empty,
      and the listed borrow token exactly when it is what the second `pool_id` field holds. */
  lemma LostFieldsIff(row: QueryRow, info: BaseInfo, fillsTwice: bool)
    ensures var p := ItemOf(Scanned(row, fillsTwice)).poolData;
      && (p.autoLiquidateThreshold == info.autoLiquidateThreshold <==> info.autoLiquidateThreshold == "")
      && (p.borrowToken == info.borrowToken <==>
            info.borrowToken == if fillsTwice then Decimal(row.poolId) else "")
  {
    assert forall c: Column :: ColumnName(c) != "auto_liquidata_threshold";
  }

  /** A decimal number or nothing is no address. */
  lemma NoAddressListed(row: QueryRow, info: BaseInfo, fillsTwice: bool)
    requires 'x' in info.borrowToken
    ensures ItemOf(Scanned(row, fillsTwice)).poolData.borrowToken != info.borrowToken
  {
    LostFieldsIff(row, info, fillsTwice);
    var i :| 0 <= i < |info.borrowToken| && info.borrowToken[i] == 'x';
    assert Decimal(row.poolId) != info.borrowToken;
  }

  // ----- Index and position -----

  /** The answer to `chain_id=? order by pool_id asc`: that chain's rows, all of them, in id order. */
  ghost predicate IsQueryResult(rows: Rows, chainId: string, res: seq<QueryRow>) {
    && (forall i, j :: 0 <= i < j < |res| ==> res[i].poolId < res[j].poolId)
    && (forall i :: 0 <= i < |res| ==>
          PoolKey(chainId, res[i].poolId) in rows && rows[PoolKey(chainId, res[i].poolId)] == res[i].columns)
    && (forall key :: key in rows && key.chainId == chainId ==>
          exists i :: 0 <= i < |res| && res[i].poolId == key.poolId)
  }

  /** The pools of a chain in the table are exactly contract pools 0 to n-1. */
  ghost predicate Contiguous(rows: Rows, chainId: string, n: nat) {
    forall id: nat :: PoolKey(chainId, id) in rows <==> 1 <= id <= n
  }

  lemma {:induction false} AscendingFrom(rows: Rows, chainId: string, res: seq<QueryRow>, n: nat, k: nat)
    requires IsQueryResult(rows, chainId, res) && Contiguous(rows, chainId, n)
    requires k < |res|
    ensures res[k].poolId == k + 1
  {
    assert PoolKey(chainId, res[k].poolId) in rows;
    if k > 0 {
      AscendingFrom(rows, chainId, res, n, k - 1);
      assert PoolKey(chainId, k + 1) in rows;
      var i :| 0 <= i < |res| && res[i].poolId == PoolKey(chainId, k + 1).poolId;
      assert i >= k;
    } else {
      assert PoolKey(chainId, 1) in rows;
      var i :| 0 <= i < |res| && res[i].poolId == PoolKey(chainId, 1).poolId;
    }
  }

  lemma LengthOf(rows: Rows, chainId: string, res: seq<QueryRow>, n: nat)
    requires IsQueryResult(rows, chainId, res) && Contiguous(rows, chainId, n)
    ensures |res| == n
  {
    if |res| > 0 {
      AscendingFrom(rows, chainId, res, n, |res| - 1);
      assert PoolKey(chainId, res[|res| - 1].poolId) in rows;
    }
    if n > 0 {
      assert PoolKey(chainId, n) in rows;
      var i :| 0 <= i < |res| && res[i].poolId == PoolKey(chainId, n).poolId;
      AscendingFrom(rows, chainId, res, n, i);
    }
  }

  /** Every listed index is its position exactly when the synced pools have no gap. */
  lemma IndexIsPositionIff(rows: Rows, chainId: string, res: seq<QueryRow>)
    requires IsQueryResult(rows, chainId, res)
    ensures (forall k :: 0 <= k < |res| ==> res[k].poolId - 1 == k) <==> Contiguous(rows, chainId, |res|)
  {
    if forall k :: 0 <= k < |res| ==> res[k].poolId - 1 == k {
      forall id: nat
        ensures PoolKey(chainId, id) in rows <==> 1 <= id <= |res|
      {
        if PoolKey(chainId, id) in rows {
          var i :| 0 <= i < |res| && res[i].poolId == PoolKey(chainId, id).poolId;
        }
        if 1 <= id <= |res| {
          assert res[id - 1].poolId == id;
        }
      }
    }
    if Contiguous(rows, chainId, |res|) {
      forall k | 0 <= k < |res|
        ensures res[k].poolId - 1 == k
      {
        AscendingFrom(rows, chainId, res, |res|, k);
      }
    }
  }

  /** Rows of the chain, if any, belong to the pools of this pass. */
  ghost predicate NoOtherPools(rows: Rows, chainId: string, n: nat) {
    forall id: nat :: PoolKey(chainId, id) in rows ==> 1 <= id <= n
  }

  // ----- The listing after a pass -----

  /** The pool was read, its save succeeds, and the chain's answers are not blank. */
  predicate Readable(turn: Turn) {
    SavesWork(turn) && turn.base.Some? && Filled(turn.base.value)
  }

  /** The pass reads every pool, its table has no other pools of the chain, and rows back its fingerprints. */
  ghost predicate ReadsEveryPool(md5: PoolBase -> string, w: World, chainId: string, turns: seq<Turn>) {
    && (forall i: nat :: i < |turns| ==> Readable(turns[i]) && MirroredAt(md5, w, KeyOf(chainId, i)))
    && NoOtherPools(w.poolbases, chainId, |turns|)
  }

  /** `res` is what the API finds for the chain after such a pass. */
  ghost predicate FoundAfterPass(
    md5: PoolBase -> string, w: World, chainId: string, fees: Fees, turns: seq<Turn>, res: seq<QueryRow>)
  {
    && ReadsEveryPool(md5, w, chainId, turns)
    && IsQueryResult(SyncPools(ByFingerprint(md5), w, chainId, fees, turns).poolbases, chainId, res)
  }

  lemma PassAddsNoOtherPool(policy: Policy, w: World, chainId: string, fees: Fees, turns: seq<Turn>, id: nat)
    requires NoOtherPools(w.poolbases, chainId, |turns|) && !(1 <= id <= |turns|)
    ensures PoolKey(chainId, id) !in SyncPools(policy, w, chainId, fees, turns).poolbases
  {
    assert turns[..0] == [];
    LaterTurnsElsewhere(policy, w, chainId, fees, turns, 0, PoolKey(chainId, id));
  }

  /** The summaries of the row are those its own turn built. */
  lemma PassShowsTokenInfo(
    md5: PoolBase -> string, w: World, chainId: string, fees: Fees, turns: seq<Turn>, i: nat)
    requires i < |turns| && SavesWork(turns[i]) && turns[i].base.Some?
    requires MirroredAt(md5, w, KeyOf(chainId, i))
    ensures var tokens := TokensRead(md5, w, chainId, fees, turns, i);
      var rows := SyncPools(ByFingerprint(md5), w, chainId, fees, turns).poolbases; var key := KeyOf(chainId, i);
      && key in rows && LendTokenInfo in rows[key] && BorrowTokenInfo in rows[key]
      && Tells(Unmarshal(rows[key][LendTokenInfo]), fees.lendFee, tokens.1.logo, tokens.1.symbol, tokens.1.price)
      && Tells(
           Unmarshal(rows[key][BorrowTokenInfo]), fees.borrowFee, tokens.0.logo, tokens.0.symbol, tokens.0.price)
  {
    var before := SyncPools(ByFingerprint(md5), w, chainId, fees, turns[..i]);
    OneTurnPerPool(ByFingerprint(md5), w, chainId, fees, turns, i);
    UntouchedMirrored(md5, w, before, KeyOf(chainId, i));
    TurnShowsTokenInfo(md5, before, KeyOf(chainId, i), fees, turns[i]);
  }

  /** The cached borrow and lend token as turn `i` of the pass reads them. */
  function TokensRead(
    md5: PoolBase -> string, w: World, chainId: string, fees: Fees, turns: seq<Turn>, i: nat): (T.Entry, T.Entry)
    requires i < |turns| && turns[i].base.Some?
  {
    var before, info := SyncPools(ByFingerprint(md5), w, chainId, fees, turns[..i]), turns[i].base.value;
    var borrow := T.Read(before.tokens, TokenKey(chainId, info.borrowToken), turns[i].faults.borrowRead);
    var lend := T.Read(borrow.store, TokenKey(chainId, info.lendToken), turns[i].faults.lendRead);
    (borrow.entry, lend.entry)
  }

  /** The summary shows this fee, and the logo, symbol and price of the token. */
  predicate Tells(summary: Summary, fee: string, logo: string, symbol: string, price: string) {
    summary.fee == fee && summary.logo == logo && summary.name == symbol && summary.price == price
  }

  lemma PassHasPool(
    md5: PoolBase -> string, w: World, chainId: string, fees: Fees, turns: seq<Turn>, i: nat)
    requires ReadsEveryPool(md5, w, chainId, turns) && i < |turns|
    ensures var rows := SyncPools(ByFingerprint(md5), w, chainId, fees, turns).poolbases;
      && turns[i].base.Some? && PoolKey(chainId, i + 1) in rows
      && Shows(rows[PoolKey(chainId, i + 1)], turns[i].base.value)
  {
    assert Readable(turns[i]);
    PassShowsChain(md5, w, chainId, fees, turns, i);
  }

  lemma PassHasRow(md5: PoolBase -> string, w: World, chainId: string, fees: Fees, turns: seq<Turn>, id: nat)
    requires ReadsEveryPool(md5, w, chainId, turns) && 1 <= id <= |turns|
    ensures PoolKey(chainId, id) in SyncPools(ByFingerprint(md5), w, chainId, fees, turns).poolbases
  {
    var i: nat := id - 1;
    assert Readable(turns[i]) && MirroredAt(md5, w, KeyOf(chainId, i));
    PassShowsChain(md5, w, chainId, fees, turns, i);
    assert KeyOf(chainId, i) == PoolKey(chainId, id);
  }

  lemma PassHoldsPoolIff(
    md5: PoolBase -> string, w: World, chainId: string, fees: Fees, turns: seq<Turn>, id: nat)
    requires ReadsEveryPool(md5, w, chainId, turns)
    ensures PoolKey(chainId, id) in SyncPools(ByFingerprint(md5), w, chainId, fees, turns).poolbases <==>
      1 <= id <= |turns|
  {
    if 1 <= id <= |turns| {
      PassHasRow(md5, w, chainId, fees, turns, id);
    } else {
      PassAddsNoOtherPool(ByFingerprint(md5), w, chainId, fees, turns, id);
    }
  }

  lemma PassContiguous(
    md5: PoolBase -> string, w: World, chainId: string, fees: Fees, turns: seq<Turn>)
    requires ReadsEveryPool(md5, w, chainId, turns)
    ensures Contiguous(SyncPools(ByFingerprint(md5), w, chainId, fees, turns).poolbases, chainId, |turns|)
  {
    forall id: nat
      ensures PoolKey(chainId, id) in SyncPools(ByFingerprint(md5), w, chainId, fees, turns).poolbases <==>
        1 <= id <= |turns|
    {
      PassHoldsPoolIff(md5, w, chainId, fees, turns, id);
    }
  }

  /** Row `k` of what the API finds is the row of contract pool `k`. */
  lemma FoundInOrder(
    md5: PoolBase -> string, w: World, chainId: string, fees: Fees, turns: seq<Turn>, res: seq<QueryRow>)
    requires FoundAfterPass(md5, w, chainId, fees, turns, res)
    ensures |res| == |turns|
    ensures var rows := SyncPools(ByFingerprint(md5), w, chainId, fees, turns).poolbases;
      forall k: nat :: k < |res| ==>
        res[k].poolId == k + 1 && KeyOf(chainId, k) in rows && res[k].columns == rows[KeyOf(chainId, k)]
  {
    var rows := SyncPools(ByFingerprint(md5), w, chainId, fees, turns).poolbases;
    PassContiguous(md5, w, chainId, fees, turns);
    LengthOf(rows, chainId, res, |turns|);
    forall k: nat | k < |res|
      ensures res[k].poolId == k + 1 && KeyOf(chainId, k) in rows && res[k].columns == rows[KeyOf(chainId, k)]
    {
      AscendingFrom(rows, chainId, res, |turns|, k);
      assert KeyOf(chainId, k) == PoolKey(chainId, res[k].poolId);
    }
  }

  /** After such a pass, the listing has one entry per contract pool, in contract order, with the values the
      contract returned for that very pool and the token summaries its turn built. */
  lemma ListingFollowsContract(
    md5: PoolBase -> string, w: World, chainId: string, fees: Fees, turns: seq<Turn>, res: seq<QueryRow>,
    fillsTwice: bool)
    requires FoundAfterPass(md5, w, chainId, fees, turns, res)
    ensures |res| == |turns|
    ensures forall k: nat :: k < |res| ==>
      var item := ItemOf(Scanned(res[k], fillsTwice));
      && item.index == k && item.poolData.poolId == k + 1
      && turns[k].base.Some? && Lists(item.poolData, turns[k].base.value)
      && var tokens := TokensRead(md5, w, chainId, fees, turns, k);
      && Tells(
           item.poolData.borrowTokenInfo, fees.borrowFee, tokens.0.logo, tokens.0.symbol, tokens.0.price)
      && Tells(item.poolData.lendTokenInfo, fees.lendFee, tokens.1.logo, tokens.1.symbol, tokens.1.price)
  {
    FoundInOrder(md5, w, chainId, fees, turns, res);
    forall k: nat | k < |res|
      ensures var item := ItemOf(Scanned(res[k], fillsTwice));
        && turns[k].base.Some? && Lists(item.poolData, turns[k].base.value)
        && var tokens := TokensRead(md5, w, chainId, fees, turns, k);
        && Tells(
           item.poolData.borrowTokenInfo, fees.borrowFee, tokens.0.logo, tokens.0.symbol, tokens.0.price)
        && Tells(item.poolData.lendTokenInfo, fees.lendFee, tokens.1.logo, tokens.1.symbol, tokens.1.price)
    {
      PassHasPool(md5, w, chainId, fees, turns, k);
      ShownIsListed(res[k], turns[k].base.value, fillsTwice);
      PassShowsTokenInfo(md5, w, chainId, fees, turns, k);
      SummariesAreListed(res[k], fillsTwice);
    }
  }

  lemma SummarisedIsTold(row: QueryRow, fees: Fees, borrow: T.Row, lend: T.Row, fillsTwice: bool)
    requires Summarises(row.columns, BorrowTokenInfo, fees.borrowFee, borrow)
    requires Summarises(row.columns, LendTokenInfo, fees.lendFee, lend)
    ensures TellsTokens(ItemOf(Scanned(row, fillsTwice)).poolData, fees, borrow, lend)
  {
    SummariesAreListed(row, fillsTwice);
  }

  predicate TellsTokens(p: PoolData, fees: Fees, borrow: T.Row, lend: T.Row) {
    && Tells(p.borrowTokenInfo, fees.borrowFee, borrow.logo, borrow.symbol, borrow.price)
    && Tells(p.lendTokenInfo, fees.lendFee, lend.logo, lend.symbol, lend.price)
  }

  /** The entry tells the fees and the rows of the two tokens the turn read. */
  predicate TellsRows(rows: map<T.Key, T.Row>, chainId: string, fees: Fees, turn: Turn, p: PoolData) {
    && turn.base.Some?
    && BorrowKey(chainId, turn.base.value) in rows && LendKey(chainId, turn.base.value) in rows
    && TellsTokens(p, fees, rows[BorrowKey(chainId, turn.base.value)], rows[LendKey(chainId, turn.base.value)])
  }

  lemma EntryShowsTokenRows(
    md5: PoolBase -> string, w: World, chainId: string, fees: Fees, turns: seq<Turn>, k: nat, row: QueryRow,
    fillsTwice: bool)
    requires E.Exact(w.tokens) && k < |turns| && Readable(turns[k]) && TokensKnown(w.tokens, chainId, turns[k])
    requires MirroredAt(md5, w, KeyOf(chainId, k))
    requires var rows := SyncPools(ByFingerprint(md5), w, chainId, fees, turns).poolbases;
      KeyOf(chainId, k) in rows && row.columns == rows[KeyOf(chainId, k)]
    ensures TellsRows(w.tokens.rows, chainId, fees, turns[k], ItemOf(Scanned(row, fillsTwice)).poolData)
  {
    var info := turns[k].base.value;
    PassShowsTokenRows(md5, w, chainId, fees, turns, k);
    SummarisedIsTold(row, fees,
      w.tokens.rows[BorrowKey(chainId, info)], w.tokens.rows[LendKey(chainId, info)], fillsTwice);
  }

  lemma EntryKShowsTokenRows(
    md5: PoolBase -> string, w: World, chainId: string, fees: Fees, turns: seq<Turn>, res: seq<QueryRow>, k: nat,
    fillsTwice: bool)
    requires FoundAfterPass(md5, w, chainId, fees, turns, res)
    requires E.Exact(w.tokens) && k < |res|
    requires forall i: nat :: i < |turns| && turns[i].base.Some? ==> TokensKnown(w.tokens, chainId, turns[i])
    ensures |res| == |turns|
    ensures TellsRows(w.tokens.rows, chainId, fees, turns[k], ItemOf(Scanned(res[k], fillsTwice)).poolData)
  {
    FoundInOrder(md5, w, chainId, fees, turns, res);
    assert Readable(turns[k]) && MirroredAt(md5, w, KeyOf(chainId, k));
    EntryShowsTokenRows(md5, w, chainId, fees, turns, k, res[k], fillsTwice);
  }

  /** If the pass started with a cache of full copies, such as a flushed one, and the tokens are in the table,
      the listed summaries are those of the token table. */
  lemma ListingShowsTokenRows(
    md5: PoolBase -> string, w: World, chainId: string, fees: Fees, turns: seq<Turn>, res: seq<QueryRow>,
    fillsTwice: bool)
    requires FoundAfterPass(md5, w, chainId, fees, turns, res)
    requires E.Exact(w.tokens)
    requires forall i: nat :: i < |turns| && turns[i].base.Some? ==> TokensKnown(w.tokens, chainId, turns[i])
    ensures |res| == |turns|
    ensures forall k: nat :: k < |res| ==>
      TellsRows(w.tokens.rows, chainId, fees, turns[k], ItemOf(Scanned(res[k], fillsTwice)).poolData)
  {
    FoundInOrder(md5, w, chainId, fees, turns, res);
    forall k: nat | k < |res|
      ensures TellsRows(w.tokens.rows, chainId, fees, turns[k], ItemOf(Scanned(res[k], fillsTwice)).poolData)
    {
      EntryKShowsTokenRows(md5, w, chainId, fees, turns, res, k, fillsTwice);
    }
  }

  /** After such a pass the table has every pool's threshold and borrow token, and the listing has neither: no
      threshold at all, and never the address of a borrow token. */
  lemma ListingLosesThreshold(
    md5: PoolBase -> string, w: World, chainId: string, fees: Fees, turns: seq<Turn>, res: seq<QueryRow>,
    fillsTwice: bool)
    requires FoundAfterPass(md5, w, chainId, fees, turns, res)
    ensures |res| == |turns|
    ensures forall k: nat :: k < |res| ==>
      && turns[k].base.Some?
      && var info, p := turns[k].base.value, ItemOf(Scanned(res[k], fillsTwice)).poolData;
      && Holds(res[k].columns, AutoLiquidateThreshold, info.autoLiquidateThreshold)
      && Holds(res[k].columns, BorrowToken, info.borrowToken)
      && p.autoLiquidateThreshold != info.autoLiquidateThreshold
      && ('x' in info.borrowToken ==> p.borrowToken != info.borrowToken)
  {
    FoundInOrder(md5, w, chainId, fees, turns, res);
    forall k: nat | k < |res|
      ensures turns[k].base.Some?
      ensures var info, p := turns[k].base.value, ItemOf(Scanned(res[k], fillsTwice)).poolData;
        && Holds(res[k].columns, AutoLiquidateThreshold, info.autoLiquidateThreshold)
        && Holds(res[k].columns, BorrowToken, info.borrowToken)
        && p.autoLiquidateThreshold != info.autoLiquidateThreshold
        && ('x' in info.borrowToken ==> p.borrowToken != info.borrowToken)
    {
      PassHasPool(md5, w, chainId, fees, turns, k);
      LostFieldsIff(res[k], turns[k].base.value, fillsTwice);
      if 'x' in turns[k].base.value.borrowToken {
        NoAddressListed(res[k], turns[k].base.value, fillsTwice);
      }
    }
  }
}
