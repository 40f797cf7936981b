/**
 The chain-to-database sync of lending pools: pledge-backend/schedule/services/poolService.go with
 the upserts of schedule/models/poolBase.go and poolData.go.  Two Redis fingerprints per pool, with a
 30-minute expiry, decide whether its rows are written.  MD5 over JSON is a parameter.
 */
module PoolSync {
  import opened Prelude
  import T = TokenCache

  datatype PoolKey = PoolKey(chainId: string, poolId: nat)

  /** A column value: text, a marshalled token summary, or a formatted date and time. */
  datatype Value =
    | Text(text: string)
    | TokenJson(fee: string, logo: string, name: string, price: string)
    | Stamp(time: int)

  const Blank := Text("")

  datatype Column =
    | SettleTime | EndTime | InterestRate | MaxSupply | LendSupply | BorrowSupply | MartgageRate
    | LendToken | LendTokenInfo | BorrowToken | BorrowTokenInfo | PoolState | SpCoin | JpCoin
    | AutoLiquidateThreshold | LendTokenSymbol | BorrowTokenSymbol | CreatedAt | UpdatedAt

  /** The columns that come from the chain and the token cache when the record is built. */
  const Core: set<Column> := {
    SettleTime, EndTime, InterestRate, MaxSupply, LendSupply, BorrowSupply, MartgageRate,
    LendToken, LendTokenInfo, BorrowToken, BorrowTokenInfo, PoolState, SpCoin, JpCoin,
    AutoLiquidateThreshold}

  datatype DataColumn =
    | FinishAmountBorrow | FinishAmountLend | LiquidationAmounBorrow | LiquidationAmounLend
    | SettleAmountBorrow | SettleAmountLend | DataCreatedAt | DataUpdatedAt

  datatype PoolBase = PoolBase(key: PoolKey, columns: map<Column, Value>)

  type PoolData = map<DataColumn, Value>

  /** The answer of the contract's poolBaseInfo(i), its numbers and addresses as text. */
  datatype BaseInfo = BaseInfo(
    settleTime: string, endTime: string, interestRate: string, maxSupply: string, lendSupply: string,
    borrowSupply: string, martgageRate: string, lendToken: string, borrowToken: string, state: string,
    spCoin: string, jpCoin: string, autoLiquidateThreshold: string)

  /** The answer of the contract's poolDataInfo(i). */
  datatype DataInfo = DataInfo(
    finishAmountBorrow: string, finishAmountLend: string, liquidationAmounBorrow: string,
    liquidationAmounLend: string, settleAmountBorrow: string, settleAmountLend: string)

  datatype Fees = Fees(lendFee: string, borrowFee: string)

  const TTL := 60 * 30

  datatype Fingerprint = Fingerprint(digest: string, expireAt: int)

  datatype Kind = BaseSave | DataSave

  /** A call of SavePoolBase or SavePoolData, successful or not. */
  datatype Attempt = Attempt(kind: Kind, key: PoolKey, time: int)

  datatype World = World(
    tokens: T.Store,
    baseInfo: map<PoolKey, Fingerprint>,
    dataInfo: map<PoolKey, Fingerprint>,
    poolbases: map<PoolKey, map<Column, Value>>,
    pooldata: map<PoolKey, PoolData>,
    attempts: set<Attempt>)

  /** Table errors inside SavePoolBase, in the order the calls are made. */
  datatype SaveFaults = SaveFaults(
    borrowLookup: bool, borrowCreate: bool, lendLookup: bool, lendCreate: bool,
    rowLookup: bool, rowCreate: bool, rowUpdate: bool)

  datatype DataFaults = DataFaults(rowLookup: bool, rowCreate: bool, rowUpdate: bool)

  /** Errors of one pool's turn in the loop: cache reads and writes, saves, the two token reads. */
  datatype PoolFaults = PoolFaults(
    borrowRead: T.Faults, lendRead: T.Faults,
    getBase: bool, setBase: bool, save: SaveFaults,
    getData: bool, setData: bool, saveData: DataFaults)

  /** One pool's turn: when it runs and what the two contract reads return. */
  datatype Turn = Turn(time: int, base: Option<BaseInfo>, data: Option<DataInfo>, faults: PoolFaults)

  /** The source skips writes by fingerprint; writing always is what it is compared with. */
  datatype Policy = ByFingerprint(md5: PoolBase -> string) | Always

  // ----- Rows -----

  /** A struct update overwrites the columns whose new value is not the zero value. */
  function Overwrite<C>(old_: map<C, Value>, new_: map<C, Value>): map<C, Value> {
    map c | c in old_.Keys + new_.Keys ::
      if c in new_ && (new_[c] != Blank || c !in old_) then new_[c] else old_[c]
  }

  function RecordOf(
    key: PoolKey, info: BaseInfo, fees: Fees, borrowToken: T.Entry, lendToken: T.Entry): PoolBase
  {
    PoolBase(key, map[
      SettleTime := Text(info.settleTime),
      EndTime := Text(info.endTime),
      InterestRate := Text(info.interestRate),
      MaxSupply := Text(info.maxSupply),
      LendSupply := Text(info.lendSupply),
      BorrowSupply := Text(info.borrowSupply),
      MartgageRate := Text(info.martgageRate),
      LendToken := Text(info.lendToken),
      LendTokenSymbol := Text(lendToken.symbol),
      LendTokenInfo := TokenJson(fees.lendFee, lendToken.logo, lendToken.symbol, lendToken.price),
      BorrowToken := Text(info.borrowToken),
      BorrowTokenSymbol := Text(borrowToken.symbol),
      BorrowTokenInfo := TokenJson(fees.borrowFee, borrowToken.logo, borrowToken.symbol, borrowToken.price),
      PoolState := Text(info.state),
      SpCoin := Text(info.spCoin),
      JpCoin := Text(info.jpCoin),
      AutoLiquidateThreshold := Text(info.autoLiquidateThreshold),
      CreatedAt := Blank,
      UpdatedAt := Blank])
  }

  function DataRecordOf(data: DataInfo): PoolData {
    map[
      FinishAmountBorrow := Text(data.finishAmountBorrow),
      FinishAmountLend := Text(data.finishAmountLend),
      LiquidationAmounBorrow := Text(data.liquidationAmounBorrow),
      LiquidationAmounLend := Text(data.liquidationAmounLend),
      SettleAmountBorrow := Text(data.settleAmountBorrow),
      SettleAmountLend := Text(data.settleAmountLend),
      DataCreatedAt := Blank,
      DataUpdatedAt := Blank]
  }

  // ----- SaveTokenInfo, SavePoolBase, SavePoolData -----

  function TokenKey(chainId: string, token: string): T.Key {
    T.Key(chainId, token)
  }

  datatype Symbols = Symbols(tokens: T.Store, symbols: Option<(string, string)>)

  /** Insert the two token rows if absent and read their symbols from the table, borrow token first. */
  function SaveTokenInfo(s: T.Store, chainId: string, borrow: string, lend: string, f: SaveFaults): Symbols {
    var b, l := TokenKey(chainId, borrow), TokenKey(chainId, lend);
    var s1 := T.EnsureRow(s, b, f.borrowLookup, f.borrowCreate);
    if f.borrowLookup || b !in s1.rows then Symbols(s1, None)
    else
      var s2 := T.EnsureRow(s1, l, f.lendLookup, f.lendCreate);
      if f.lendLookup || l !in s2.rows then Symbols(s2, None)
      else Symbols(s2, Some((s2.rows[b].symbol, s2.rows[l].symbol)))
  }

  /** `record` is the caller's record, which the save fills in as it goes. */
  datatype Saved = Saved(world: World, record: PoolBase, ok: bool)

  function TextOf(v: Value): string {
    if v.Text? then v.text else ""
  }

  function TokenText(r: PoolBase, c: Column): string {
    if c in r.columns then TextOf(r.columns[c]) else ""
  }

  function WithSymbols(r: PoolBase, symbols: (string, string)): PoolBase {
    r.(columns := r.columns[BorrowTokenSymbol := Text(symbols.0)][LendTokenSymbol := Text(symbols.1)])
  }

  function WithStamps(r: PoolBase, isNew: bool, now: int): PoolBase {
    r.(columns := (if isNew then r.columns[CreatedAt := Stamp(now)] else r.columns)[UpdatedAt := Stamp(now)])
  }

  /** A new row is created and then updated with the same record. */
  function StoreRow(w: World, r: PoolBase, updateFails: bool): World {
    var stored := if r.key in w.poolbases then w.poolbases[r.key] else r.columns;
    w.(poolbases := w.poolbases[r.key := if updateFails then stored else Overwrite(stored, r.columns)])
  }

  function SavePoolBase(w: World, r: PoolBase, now: int, f: SaveFaults): Saved {
    var named := SaveTokenInfo(w.tokens, r.key.chainId, TokenText(r, BorrowToken), TokenText(r, LendToken), f);
    var w1 := w.(tokens := named.tokens, attempts := w.attempts + {Attempt(BaseSave, r.key, now)});
    if named.symbols.None? then Saved(w1, r, false)
    else
      var r1 := WithSymbols(r, named.symbols.value);
      if f.rowLookup then Saved(w1, r1, false)
      else
        var isNew := r.key !in w.poolbases;
        var r2 := WithStamps(r1, isNew, now);
        if isNew && f.rowCreate then Saved(w1, r2, false)
        else Saved(StoreRow(w1, r2, f.rowUpdate), r2, !f.rowUpdate)
  }

  function SavePoolData(w: World, key: PoolKey, data: DataInfo, now: int, f: DataFaults): World {
    var w1 := w.(attempts := w.attempts + {Attempt(DataSave, key, now)});
    var d := DataRecordOf(data)[DataUpdatedAt := Stamp(now)];
    if f.rowLookup then w1
    else
      var isNew := key !in w.pooldata;
      var d1 := if isNew then d[DataCreatedAt := Stamp(now)] else d;
      if isNew && f.rowCreate then w1
      else
        var stored := if isNew then d1 else w.pooldata[key];
        w1.(pooldata := w.pooldata[key := if f.rowUpdate then stored else Overwrite(stored, d1)])
  }

  // ----- The loop -----

  /** A key set with an expiry answers until that time has passed. */
  predicate Live(cache: map<PoolKey, Fingerprint>, key: PoolKey, now: int) {
    key in cache && now <= cache[key].expireAt
  }

  /** The guard in front of a save; a failing cache read counts as a miss. */
  predicate NeedsWrite(policy: Policy, cache: map<PoolKey, Fingerprint>, r: PoolBase, now: int, getFails: bool) {
    policy.ByFingerprint? ==>
      getFails || !Live(cache, r.key, now) || policy.md5(r) != cache[r.key].digest
  }

  function Remember(
    policy: Policy, cache: map<PoolKey, Fingerprint>, r: PoolBase, now: int, setFails: bool): map<PoolKey, Fingerprint>
  {
    if policy.Always? || setFails then cache else cache[r.key := Fingerprint(policy.md5(r), now + TTL)]
  }

  /** The fingerprint stored is the one of the record before the save filled it in. */
  function SyncBase(policy: Policy, w: World, r: PoolBase, now: int, f: PoolFaults): Saved {
    if !NeedsWrite(policy, w.baseInfo, r, now, f.getBase) then Saved(w, r, true)
    else
      var saved := SavePoolBase(w, r, now, f.save);
      saved.(world := saved.world.(baseInfo := Remember(policy, w.baseInfo, r, now, f.setBase)))
  }

  /** The settlement data is guarded by a fingerprint of the base record, as it is at this point. */
  function SyncData(policy: Policy, w: World, r: PoolBase, data: DataInfo, now: int, f: PoolFaults): World {
    if !NeedsWrite(policy, w.dataInfo, r, now, f.getData) then w
    else SavePoolData(w, r.key, data, now, f.saveData).(dataInfo := Remember(policy, w.dataInfo, r, now, f.setData))
  }

  datatype Built = Built(world: World, record: PoolBase)

  /** Read both tokens through the cache, errors ignored, and build the record. */
  function BuildRecord(w: World, key: PoolKey, info: BaseInfo, fees: Fees, f: PoolFaults): Built {
    var borrow := T.Read(w.tokens, TokenKey(key.chainId, info.borrowToken), f.borrowRead);
    var lend := T.Read(borrow.store, TokenKey(key.chainId, info.lendToken), f.lendRead);
    Built(w.(tokens := lend.store), RecordOf(key, info, fees, borrow.entry, lend.entry))
  }

  function SyncPool(policy: Policy, w: World, key: PoolKey, fees: Fees, turn: Turn): World {
    if turn.base.None? then w
    else
      var built := BuildRecord(w, key, turn.base.value, fees, turn.faults);
      var saved := SyncBase(policy, built.world, built.record, turn.time, turn.faults);
      if turn.data.None? then saved.world
      else SyncData(policy, saved.world, saved.record, turn.data.value, turn.time, turn.faults)
  }

  /** Contract pool `i` is row `i + 1`. */
  function KeyOf(chainId: string, i: nat): PoolKey {
    PoolKey(chainId, i + 1)
  }

  function SyncPools(policy: Policy, w: World, chainId: string, fees: Fees, turns: seq<Turn>): World {
    if turns == [] then w
    else
      var n := |turns| - 1;
      SyncPool(policy, SyncPools(policy, w, chainId, fees, turns[..n]), KeyOf(chainId, n), fees, turns[n])
  }

  // ----- Runs -----

  /** A pass of UpdatePoolInfo (`None` when the contract cannot be reached), or a token job at work. */
  datatype Event = Pass(chainId: string, fees: Fees, turns: Option<seq<Turn>>) | TokenWork(op: T.Op)

  function Step(policy: Policy, w: World, e: Event): World {
    match e
    case Pass(chainId, fees, turns) => if turns.None? then w else SyncPools(policy, w, chainId, fees, turns.value)
    case TokenWork(op) => w.(tokens := T.Apply(w.tokens, op))
  }

  function Run(policy: Policy, w: World, events: seq<Event>): World
    decreases |events|
  {
    if events == [] then w else Run(policy, Step(policy, w, events[0]), events[1..])
  }

  /** The state after the scheduler flushed Redis, over whatever the tables hold. */
  predicate Flushed(w: World) {
    w.tokens.redis == map[] && w.baseInfo == map[] && w.dataInfo == map[] && w.attempts == {}
  }
}
