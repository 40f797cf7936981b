/**
 The pool tables column by column: what a save writes and what it leaves, when a row was created, how long a
 fingerprint holds a save back, and whose fields the token summaries carry.
 */
module PoolColumnTheorems {
  import opened Prelude
  import opened PoolSync
  import opened PoolSyncTheorems
  import opened PoolRowTheorems
  import T = TokenCache
  import E = TokenCacheEffects

  // ----- The upserts -----

  /** `stored` took the record column by column: a column with a value takes it, and a blank one is left as it
      was, if it was there. */
  ghost predicate Merged<C>(old_: map<C, Value>, record: map<C, Value>, stored: map<C, Value>) {
    && (forall c :: c in record && (record[c] != Text("") || c !in old_) ==> c in stored && stored[c] == record[c])
    && (forall c :: c in old_ && (c !in record || record[c] == Text("")) ==> c in stored && stored[c] == old_[c])
    && (forall c :: c in stored ==> c in old_ || c in record)
  }

  /** The token table answers, and each token row is there or can be inserted. */
  predicate TokenRowsReady(s: T.Store, b: T.Key, l: T.Key, f: SaveFaults) {
    && !f.borrowLookup && (b in s.rows || !f.borrowCreate)
    && !f.lendLookup && (l in s.rows || l == b || !f.lendCreate)
  }

  /** The symbols of the table, blank for a row just inserted; Redis is not asked. */
  lemma SaveTokenInfoExactly(s: T.Store, chainId: string, borrow: string, lend: string, f: SaveFaults)
    ensures var b, l := T.Key(chainId, borrow), T.Key(chainId, lend);
      var named := SaveTokenInfo(s, chainId, borrow, lend, f);
      && (named.symbols.Some? <==> TokenRowsReady(s, b, l, f))
      && (named.symbols.Some? ==>
            && named.symbols.value.0 == (if b in s.rows then s.rows[b].symbol else "")
            && named.symbols.value.1 == (if l in s.rows then s.rows[l].symbol else ""))
      && named.tokens.redis == s.redis
      && (forall k :: k in s.rows ==> k in named.tokens.rows && named.tokens.rows[k] == s.rows[k])
      && (forall k :: k in named.tokens.rows && k !in s.rows ==>
            k in {b, l} && named.tokens.rows[k] == T.Row("", "", "", 0))
  {
  }

  predicate TokensReady(w: World, r: PoolBase, f: SaveFaults) {
    var b, l := TokenText(r, BorrowToken), TokenText(r, LendToken);
    TokenRowsReady(w.tokens, T.Key(r.key.chainId, b), T.Key(r.key.chainId, l), f)
  }

  predicate BaseSaveReaches(w: World, r: PoolBase, f: SaveFaults) {
    && TokensReady(w, r, f) && !f.rowLookup
    && (if r.key in w.poolbases then !f.rowUpdate else !f.rowCreate)
  }

  /** `saved` is `r` with the symbols, the time of the save and, in a new row, the time of the insert. */
  ghost predicate FilledIn(r: PoolBase, saved: PoolBase, borrow: string, lend: string, isNew: bool, now: int) {
    && saved.key == r.key
    && saved.columns.Keys == r.columns.Keys + {BorrowTokenSymbol, LendTokenSymbol, UpdatedAt}
         + (if isNew then {CreatedAt} else {})
    && saved.columns[BorrowTokenSymbol] == Text(borrow)
    && saved.columns[LendTokenSymbol] == Text(lend)
    && saved.columns[UpdatedAt] == Stamp(now)
    && (isNew ==> saved.columns[CreatedAt] == Stamp(now))
    && (forall c :: c in r.columns - {BorrowTokenSymbol, LendTokenSymbol, UpdatedAt} ==>
          (c == CreatedAt && isNew) || saved.columns[c] == r.columns[c])
  }

  lemma StampsFillIn(r: PoolBase, symbols: (string, string), isNew: bool, now: int)
    ensures FilledIn(r, WithStamps(WithSymbols(r, symbols), isNew, now), symbols.0, symbols.1, isNew, now)
  {
  }

  function SymbolOf(s: T.Store, chainId: string, token: string): string {
    if T.Key(chainId, token) in s.rows then s.rows[T.Key(chainId, token)].symbol else ""
  }

  /** The caller's record after the save: filled in with the symbols of the token table, each on its own side,
      and the time, even if the row could not be written; with the symbols alone if the row could not be looked
      up; and untouched if a token row could not be had. */
  lemma SavedRecord(w: World, r: PoolBase, now: int, f: SaveFaults)
    ensures var saved := SavePoolBase(w, r, now, f);
      var borrow := SymbolOf(w.tokens, r.key.chainId, TokenText(r, BorrowToken));
      var lend := SymbolOf(w.tokens, r.key.chainId, TokenText(r, LendToken));
      if !TokensReady(w, r, f) then saved.record == r
      else if f.rowLookup then
        saved.record == r.(columns := r.columns[BorrowTokenSymbol := Text(borrow)][LendTokenSymbol := Text(lend)])
      else FilledIn(r, saved.record, borrow, lend, r.key !in w.poolbases, now)
  {
    var b, l := TokenText(r, BorrowToken), TokenText(r, LendToken);
    SaveTokenInfoExactly(w.tokens, r.key.chainId, b, l, f);
    if TokensReady(w, r, f) {
      var symbols := SaveTokenInfo(w.tokens, r.key.chainId, b, l, f).symbols.value;
      StampsFillIn(r, symbols, r.key !in w.poolbases, now);
    }
  }

  /** The save writes one row if nothing stops it, a new one as the record, an old one merged with it, and none
      otherwise; it reports success exactly if no call of the table failed. */
  lemma SaveMergesColumns(w: World, r: PoolBase, now: int, f: SaveFaults)
    ensures var saved := SavePoolBase(w, r, now, f); var rows, record := saved.world.poolbases, saved.record.columns;
      && (!BaseSaveReaches(w, r, f) ==> rows == w.poolbases)
      && (BaseSaveReaches(w, r, f) ==>
            && r.key in rows && rows == w.poolbases[r.key := rows[r.key]]
            && (r.key !in w.poolbases ==> rows[r.key] == record)
            && (r.key in w.poolbases ==> Merged(w.poolbases[r.key], record, rows[r.key])))
      && (saved.ok <==> BaseSaveReaches(w, r, f) && !f.rowUpdate)
      && saved.world.pooldata == w.pooldata
  {
    SaveTokenInfoExactly(w.tokens, r.key.chainId, TokenText(r, BorrowToken), TokenText(r, LendToken), f);
    if BaseSaveReaches(w, r, f) && r.key !in w.poolbases && !f.rowUpdate {
      var record := SavePoolBase(w, r, now, f).record.columns;
      assert Overwrite(record, record) == record;
    }
  }

  /** The settlement record: the six amounts read, the time of the save, and the time of the insert if new. */
  ghost predicate SettlementRecord(record: PoolData, data: DataInfo, isNew: bool, now: int) {
    && record.Keys == {
         FinishAmountBorrow, FinishAmountLend, LiquidationAmounBorrow, LiquidationAmounLend,
         SettleAmountBorrow, SettleAmountLend, DataCreatedAt, DataUpdatedAt}
    && record[FinishAmountBorrow] == Text(data.finishAmountBorrow)
    && record[FinishAmountLend] == Text(data.finishAmountLend)
    && record[LiquidationAmounBorrow] == Text(data.liquidationAmounBorrow)
    && record[LiquidationAmounLend] == Text(data.liquidationAmounLend)
    && record[SettleAmountBorrow] == Text(data.settleAmountBorrow)
    && record[SettleAmountLend] == Text(data.settleAmountLend)
    && record[DataUpdatedAt] == Stamp(now)
    && record[DataCreatedAt] == (if isNew then Stamp(now) else Text(""))
  }

  predicate SettlementSaveReaches(w: World, key: PoolKey, f: DataFaults) {
    !f.rowLookup && (if key in w.pooldata then !f.rowUpdate else !f.rowCreate)
  }

  /** The settlement save likewise. */
  lemma DataSaveMergesColumns(w: World, key: PoolKey, data: DataInfo, now: int, f: DataFaults)
    returns (record: PoolData)
    ensures SettlementRecord(record, data, key !in w.pooldata, now)
    ensures var rows := SavePoolData(w, key, data, now, f).pooldata;
      && (!SettlementSaveReaches(w, key, f) ==> rows == w.pooldata)
      && (SettlementSaveReaches(w, key, f) ==>
            && key in rows && rows == w.pooldata[key := rows[key]]
            && (key !in w.pooldata ==> rows[key] == record)
            && (key in w.pooldata ==> Merged(w.pooldata[key], record, rows[key])))
  {
    record := DataRecordOf(data)[DataUpdatedAt := Stamp(now)];
    if key !in w.pooldata {
      record := record[DataCreatedAt := Stamp(now)];
      assert Overwrite(record, record) == record;
    }
  }

  // ----- When a row was created -----

  function CreatedOf(row: map<Column, Value>): Value {
    if CreatedAt in row then row[CreatedAt] else Text("")
  }

  function DataCreatedOf(row: PoolData): Value {
    if DataCreatedAt in row then row[DataCreatedAt] else Text("")
  }

  /** Both rows of pool `k`, if it has them, are still there with the creation time they had. */
  ghost predicate KeepsCreation(w: World, t: World, k: PoolKey) {
    && (k in w.poolbases ==> k in t.poolbases && CreatedOf(t.poolbases[k]) == CreatedOf(w.poolbases[k]))
    && (k in w.pooldata ==> k in t.pooldata && DataCreatedOf(t.pooldata[k]) == DataCreatedOf(w.pooldata[k]))
  }

  /** A row that pool `k` got in between was created at `time`. */
  ghost predicate CreatedThen(w: World, t: World, k: PoolKey, time: int) {
    && (k !in w.poolbases && k in t.poolbases ==> CreatedOf(t.poolbases[k]) == Stamp(time))
    && (k !in w.pooldata && k in t.pooldata ==> DataCreatedOf(t.pooldata[k]) == Stamp(time))
  }

  predicate Unstamped(r: PoolBase) {
    CreatedAt in r.columns && r.columns[CreatedAt] == Text("")
  }

  lemma SyncBaseCreation(policy: Policy, w: World, r: PoolBase, now: int, f: PoolFaults, k: PoolKey)
    requires Unstamped(r)
    ensures var t := SyncBase(policy, w, r, now, f).world;
      KeepsCreation(w, t, k) && (k == r.key ==> CreatedThen(w, t, k, now))
  {
    SaveMergesColumns(w, r, now, f.save);
    if BaseSaveReaches(w, r, f.save) {
      SavedRecord(w, r, now, f.save);
    }
  }

  lemma SyncDataCreation(
    policy: Policy, w: World, r: PoolBase, data: DataInfo, now: int, f: PoolFaults, k: PoolKey)
    ensures var t := SyncData(policy, w, r, data, now, f);
      KeepsCreation(w, t, k) && (k == r.key ==> CreatedThen(w, t, k, now))
  {
    var _ := DataSaveMergesColumns(w, r.key, data, now, f.saveData);
  }

  lemma TurnCreation(policy: Policy, w: World, key: PoolKey, fees: Fees, turn: Turn, k: PoolKey)
    ensures var t := SyncPool(policy, w, key, fees, turn);
      KeepsCreation(w, t, k) && (k == key ==> CreatedThen(w, t, k, turn.time))
  {
    if turn.base.Some? {
      BuildFrame(w, key, turn.base.value, fees, turn.faults);
      var built := BuildRecord(w, key, turn.base.value, fees, turn.faults);
      SyncBaseCreation(policy, built.world, built.record, turn.time, turn.faults, k);
      var saved := SyncBase(policy, built.world, built.record, turn.time, turn.faults);
      if turn.data.Some? {
        assert saved.record.key == key by {
          SaveFrame(built.world, built.record, turn.time, turn.faults.save);
        }
        SyncDataCreation(policy, saved.world, saved.record, turn.data.value, turn.time, turn.faults, k);
        SyncDataFrame(policy, saved.world, saved.record, turn.data.value, turn.time, turn.faults);
      }
    }
  }

  lemma {:induction false} PassKeepsCreation(
    policy: Policy, w: World, chainId: string, fees: Fees, turns: seq<Turn>, k: PoolKey)
    ensures KeepsCreation(w, SyncPools(policy, w, chainId, fees, turns), k)
  {
    if turns != [] {
      var n := |turns| - 1;
      PassKeepsCreation(policy, w, chainId, fees, turns[..n], k);
      TurnCreation(policy, SyncPools(policy, w, chainId, fees, turns[..n]), KeyOf(chainId, n), fees, turns[n], k);
    }
  }

  /** No run of the scheduler, with any failures, loses a pool row or a settlement row or changes the time it was
      created. */
  lemma {:induction false} RunKeepsCreation(policy: Policy, w: World, events: seq<Event>, k: PoolKey)
    ensures KeepsCreation(w, Run(policy, w, events), k)
    decreases |events|
  {
    if events != [] {
      var e := events[0];
      if e.Pass? && e.turns.Some? {
        PassKeepsCreation(policy, w, e.chainId, e.fees, e.turns.value, k);
      }
      RunKeepsCreation(policy, Step(policy, w, e), events[1..], k);
    }
  }

  /** A row that turn `i` of a pass inserts carries the time of that turn in every later state of every run. */
  lemma CreatedAtIsInsertTime(
    policy: Policy, w: World, chainId: string, fees: Fees, turns: seq<Turn>, i: nat, later: seq<Event>)
    requires i < |turns|
    ensures var key := KeyOf(chainId, i);
      var after := SyncPools(policy, w, chainId, fees, turns); var final := Run(policy, after, later);
      && (key !in w.poolbases && key in after.poolbases ==>
            key in final.poolbases && CreatedOf(final.poolbases[key]) == Stamp(turns[i].time))
      && (key !in w.pooldata && key in after.pooldata ==>
            key in final.pooldata && DataCreatedOf(final.pooldata[key]) == Stamp(turns[i].time))
  {
    var key := KeyOf(chainId, i);
    OneTurnPerPool(policy, w, chainId, fees, turns, i);
    TurnCreation(policy, SyncPools(policy, w, chainId, fees, turns[..i]), key, fees, turns[i], key);
    RunKeepsCreation(policy, SyncPools(policy, w, chainId, fees, turns), later, key);
  }

  // ----- How long a fingerprint holds a save back -----

  /** The save of a pool is attempted exactly when Redis cannot be read, has no fingerprint, one set more than
      thirty minutes ago, or one of another record. */
  predicate Due(md5: PoolBase -> string, cache: map<PoolKey, Fingerprint>, r: PoolBase, now: int, getFails: bool) {
    getFails || r.key !in cache || now > cache[r.key].expireAt || cache[r.key].digest != md5(r)
  }

  /** A pool whose base part cannot be read is left alone, a turn that cannot read the settlement part leaves the
      settlement side alone, and so does a whole pass without a contract. */
  lemma UnreadIsUntouched(policy: Policy, w: World, key: PoolKey, fees: Fees, turn: Turn)
    ensures turn.base.None? ==> SyncPool(policy, w, key, fees, turn) == w
    ensures turn.data.None? ==>
      var t := SyncPool(policy, w, key, fees, turn); t.pooldata == w.pooldata && t.dataInfo == w.dataInfo
    ensures Step(policy, w, Pass(key.chainId, fees, None)) == w
  {
    if turn.base.Some? {
      BuildFrame(w, key, turn.base.value, fees, turn.faults);
      var built := BuildRecord(w, key, turn.base.value, fees, turn.faults);
      SaveFrame(built.world, built.record, turn.time, turn.faults.save);
    }
  }

  /** Base row: what is attempted, and the fingerprint it leaves, of the record before the save, for 1800 s. */
  lemma BaseGuardExactly(md5: PoolBase -> string, w: World, r: PoolBase, now: int, f: PoolFaults)
    ensures var t := SyncBase(ByFingerprint(md5), w, r, now, f).world;
      var due := Due(md5, w.baseInfo, r, now, f.getBase);
      && t.attempts == (if due then w.attempts + {Attempt(BaseSave, r.key, now)} else w.attempts)
      && t.baseInfo == (if due && !f.setBase then w.baseInfo[r.key := Fingerprint(md5(r), now + 1800)] else w.baseInfo)
      && t.dataInfo == w.dataInfo
      && (!due ==> t == w)
  {
    SaveFrame(w, r, now, f.save);
  }

  /** Settlement row: the same with its own fingerprint, of the record at that point. */
  lemma DataGuardExactly(md5: PoolBase -> string, w: World, r: PoolBase, data: DataInfo, now: int, f: PoolFaults)
    ensures var t := SyncData(ByFingerprint(md5), w, r, data, now, f);
      var due := Due(md5, w.dataInfo, r, now, f.getData);
      && t.attempts == (if due then w.attempts + {Attempt(DataSave, r.key, now)} else w.attempts)
      && t.dataInfo == (if due && !f.setData then w.dataInfo[r.key := Fingerprint(md5(r), now + 1800)] else w.dataInfo)
      && t.baseInfo == w.baseInfo
      && (!due ==> t == w)
  {
  }

  /** Two syncs of one record, the first of which stored its fingerprint: the second saves again exactly when
      more than thirty minutes have passed or Redis cannot be read. */
  lemma SavedAgainIff(
    md5: PoolBase -> string, w: World, r: PoolBase, t1: int, f: PoolFaults, t2: int, g: PoolFaults)
    requires r.key !in w.baseInfo && !f.setBase
    requires Attempt(BaseSave, r.key, t2) !in w.attempts && t1 < t2
    ensures var first := SyncBase(ByFingerprint(md5), w, r, t1, f).world;
      var second := SyncBase(ByFingerprint(md5), first, r, t2, g).world;
      && Attempt(BaseSave, r.key, t1) in first.attempts
      && (Attempt(BaseSave, r.key, t2) in second.attempts <==> t2 - t1 > 1800 || g.getBase)
  {
    BaseGuardExactly(md5, w, r, t1, f);
    BaseGuardExactly(md5, SyncBase(ByFingerprint(md5), w, r, t1, f).world, r, t2, g);
  }
}
