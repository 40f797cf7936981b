/**
 What a turn and a pass leave in the pool rows, whatever fails: when the row of a pool is up to date, and
 what an up-to-date row shows.
 */
module PoolRowTheorems {
  import opened Prelude
  import opened PoolSync
  import opened PoolSyncTheorems
  import T = TokenCache

  // ----- One turn -----

  /** The row of the record's pool takes nothing new from the record. */
  ghost predicate UpToDate(w: World, r: PoolBase) {
    r.key in w.poolbases && Absorbed(w.poolbases[r.key], r)
  }

  /** The errors of the save spare its write of the row; a new row survives a failing second write. */
  predicate SaveReachesRow(w: World, r: PoolBase, f: SaveFaults) {
    && SaveTokenInfo(w.tokens, r.key.chainId, TokenText(r, BorrowToken), TokenText(r, LendToken), f).symbols.Some?
    && !f.rowLookup
    && (if r.key in w.poolbases then !f.rowUpdate else !f.rowCreate)
  }

  lemma SaveCoreIff(w: World, r: PoolBase, now: int, f: SaveFaults)
    ensures var t := SavePoolBase(w, r, now, f).world;
      if SaveReachesRow(w, r, f) then
        r.key in t.poolbases && CoreOf(t.poolbases[r.key]) == CoreStored(w.poolbases, r)
      else t.poolbases == w.poolbases
  {
    var named := SaveTokenInfo(w.tokens, r.key.chainId, TokenText(r, BorrowToken), TokenText(r, LendToken), f);
    if named.symbols.Some? && !f.rowLookup {
      var isNew := r.key !in w.poolbases;
      var r2 := WithStamps(WithSymbols(r, named.symbols.value), isNew, now);
      FilledInCore(r, named.symbols.value, isNew, now);
      var w1 := w.(tokens := named.tokens, attempts := w.attempts + {Attempt(BaseSave, r.key, now)});
      StoreRowCore(w1, r2);
      if !(isNew && f.rowCreate) {
        assert SavePoolBase(w, r, now, f).world == StoreRow(w1, r2, f.rowUpdate);
      }
    }
  }

  lemma WorkingSaveReachesRow(w: World, r: PoolBase)
    ensures SaveReachesRow(w, r, NoSaveFaults)
  {
    CleanTokensInsertOnlyMissing(w.tokens, r);
  }

  /** The guard asks for a save, and the save reaches the row. */
  predicate Writes(md5: PoolBase -> string, w: World, r: PoolBase, now: int, f: PoolFaults) {
    NeedsWrite(ByFingerprint(md5), w.baseInfo, r, now, f.getBase) && SaveReachesRow(w, r, f.save)
  }

  /** From any state and with any errors, the base row is up to date afterwards exactly when it was written
      or was up to date before. */
  lemma BaseRowCurrentIff(md5: PoolBase -> string, w: World, r: PoolBase, now: int, f: PoolFaults)
    ensures UpToDate(SyncBase(ByFingerprint(md5), w, r, now, f).world, r) <==>
      Writes(md5, w, r, now, f) || UpToDate(w, r)
  {
    if NeedsWrite(ByFingerprint(md5), w.baseInfo, r, now, f.getBase) {
      SaveCoreIff(w, r, now, f.save);
      if SaveReachesRow(w, r, f.save) {
        StoredIsAbsorbed(w.poolbases, SavePoolBase(w, r, now, f.save).world.poolbases[r.key], r);
      }
    }
  }

  /** Where every fingerprint is backed by its row, a skipped save means an up-to-date row. */
  lemma MirroredBaseRowCurrentIff(md5: PoolBase -> string, w: World, r: PoolBase, now: int, f: PoolFaults)
    requires Mirrored(md5, w)
    ensures UpToDate(SyncBase(ByFingerprint(md5), w, r, now, f).world, r) <==>
      || !NeedsWrite(ByFingerprint(md5), w.baseInfo, r, now, f.getBase)
      || SaveReachesRow(w, r, f.save)
      || UpToDate(w, r)
  {
    BaseRowCurrentIff(md5, w, r, now, f);
    if !NeedsWrite(ByFingerprint(md5), w.baseInfo, r, now, f.getBase) {
      assert Vouched(w, r);
    }
  }

  /** The record a turn builds. */
  function RecordAt(w: World, key: PoolKey, fees: Fees, turn: Turn): PoolBase
    requires turn.base.Some?
  {
    BuildRecord(w, key, turn.base.value, fees, turn.faults).record
  }

  /** The turn writes the row of its pool. */
  predicate TurnWrites(md5: PoolBase -> string, w: World, key: PoolKey, fees: Fees, turn: Turn)
    requires turn.base.Some?
  {
    var built := BuildRecord(w, key, turn.base.value, fees, turn.faults);
    Writes(md5, built.world, built.record, turn.time, turn.faults)
  }

  lemma TurnCurrentIff(md5: PoolBase -> string, w: World, key: PoolKey, fees: Fees, turn: Turn)
    requires turn.base.Some?
    ensures var r := RecordAt(w, key, fees, turn);
      UpToDate(SyncPool(ByFingerprint(md5), w, key, fees, turn), r) <==>
        TurnWrites(md5, w, key, fees, turn) || UpToDate(w, r)
  {
    BuildFrame(w, key, turn.base.value, fees, turn.faults);
    var built := BuildRecord(w, key, turn.base.value, fees, turn.faults);
    BaseRowCurrentIff(md5, built.world, built.record, turn.time, turn.faults);
    var saved := SyncBase(ByFingerprint(md5), built.world, built.record, turn.time, turn.faults);
    if turn.data.Some? {
      SyncDataFrame(ByFingerprint(md5), saved.world, saved.record, turn.data.value, turn.time, turn.faults);
    }
  }

  // ----- The other pools of a pass -----

  /** Nothing of pool `k` changed, and no token row was lost. */
  ghost predicate Untouched(w: World, t: World, k: PoolKey) {
    && (k in t.poolbases <==> k in w.poolbases) && (k in w.poolbases ==> t.poolbases[k] == w.poolbases[k])
    && (k in t.pooldata <==> k in w.pooldata) && (k in w.pooldata ==> t.pooldata[k] == w.pooldata[k])
    && (k in t.baseInfo <==> k in w.baseInfo) && (k in w.baseInfo ==> t.baseInfo[k] == w.baseInfo[k])
    && (k in t.dataInfo <==> k in w.dataInfo) && (k in w.dataInfo ==> t.dataInfo[k] == w.dataInfo[k])
    && w.tokens.rows.Keys <= t.tokens.rows.Keys
  }

  lemma SyncBaseElsewhere(policy: Policy, w: World, r: PoolBase, now: int, f: PoolFaults, k: PoolKey)
    requires k != r.key
    ensures Untouched(w, SyncBase(policy, w, r, now, f).world, k)
    ensures SyncBase(policy, w, r, now, f).record.key == r.key
  {
    SaveFrame(w, r, now, f.save);
  }

  lemma SyncDataElsewhere(
    policy: Policy, w: World, r: PoolBase, data: DataInfo, now: int, f: PoolFaults, k: PoolKey)
    requires k != r.key
    ensures Untouched(w, SyncData(policy, w, r, data, now, f), k)
  {
  }

  lemma UntouchedTwice(w: World, t: World, u: World, k: PoolKey)
    requires Untouched(w, t, k) && Untouched(t, u, k)
    ensures Untouched(w, u, k)
  {
  }

  lemma SyncPoolElsewhere(policy: Policy, w: World, key: PoolKey, fees: Fees, turn: Turn, k: PoolKey)
    requires k != key
    ensures Untouched(w, SyncPool(policy, w, key, fees, turn), k)
  {
    if turn.base.Some? {
      BuildFrame(w, key, turn.base.value, fees, turn.faults);
      var built := BuildRecord(w, key, turn.base.value, fees, turn.faults);
      assert Untouched(w, built.world, k);
      SyncBaseElsewhere(policy, built.world, built.record, turn.time, turn.faults, k);
      var saved := SyncBase(policy, built.world, built.record, turn.time, turn.faults);
      UntouchedTwice(w, built.world, saved.world, k);
      if turn.data.Some? {
        SyncDataElsewhere(policy, saved.world, saved.record, turn.data.value, turn.time, turn.faults, k);
        UntouchedTwice(w, saved.world, SyncPool(policy, w, key, fees, turn), k);
      }
    }
  }

  /** The turns from `from` on leave a pool of an earlier turn, or of none, alone. */
  lemma {:induction false} LaterTurnsElsewhere(
    policy: Policy, w: World, chainId: string, fees: Fees, turns: seq<Turn>, from: nat, k: PoolKey)
    requires from <= |turns|
    requires forall j: nat :: from <= j < |turns| ==> k != KeyOf(chainId, j)
    ensures Untouched(SyncPools(policy, w, chainId, fees, turns[..from]), SyncPools(policy, w, chainId, fees, turns), k)
    decreases |turns|
  {
    if from == |turns| {
      assert turns[..from] == turns;
    } else {
      var n := |turns| - 1;
      assert turns[..n][..from] == turns[..from];
      LaterTurnsElsewhere(policy, w, chainId, fees, turns[..n], from, k);
      SyncPoolElsewhere(policy, SyncPools(policy, w, chainId, fees, turns[..n]), KeyOf(chainId, n), fees, turns[n], k);
    }
  }

  /** Pool `i` before its own turn in the pass, and after the whole pass, is as its turn finds and leaves it. */
  lemma OneTurnPerPool(policy: Policy, w: World, chainId: string, fees: Fees, turns: seq<Turn>, i: nat)
    requires i < |turns|
    ensures var before, key := SyncPools(policy, w, chainId, fees, turns[..i]), KeyOf(chainId, i);
      && Untouched(w, before, key)
      && Untouched(SyncPool(policy, before, key, fees, turns[i]), SyncPools(policy, w, chainId, fees, turns), key)
  {
    assert turns[..i][..0] == [];
    LaterTurnsElsewhere(policy, w, chainId, fees, turns[..i], 0, KeyOf(chainId, i));
    assert turns[..i + 1][..i] == turns[..i];
    LaterTurnsElsewhere(policy, w, chainId, fees, turns, i + 1, KeyOf(chainId, i));
  }

  lemma UntouchedUpToDate(w: World, t: World, r: PoolBase)
    requires Untouched(w, t, r.key)
    ensures UpToDate(t, r) <==> UpToDate(w, r)
  {
  }

  /** From any state and with any errors, the row of a pool that was read is up to date after the pass exactly
      when its turn wrote it or it was up to date before the pass. */
  lemma PassCurrentIff(
    md5: PoolBase -> string, w: World, chainId: string, fees: Fees, turns: seq<Turn>, i: nat)
    requires i < |turns| && turns[i].base.Some?
    ensures var before := SyncPools(ByFingerprint(md5), w, chainId, fees, turns[..i]);
      var r := RecordAt(before, KeyOf(chainId, i), fees, turns[i]);
      UpToDate(SyncPools(ByFingerprint(md5), w, chainId, fees, turns), r) <==>
        TurnWrites(md5, before, KeyOf(chainId, i), fees, turns[i]) || UpToDate(w, r)
  {
    var policy, key := ByFingerprint(md5), KeyOf(chainId, i);
    var before := SyncPools(policy, w, chainId, fees, turns[..i]);
    var r := RecordAt(before, key, fees, turns[i]);
    BuildFrame(before, key, turns[i].base.value, fees, turns[i].faults);
    OneTurnPerPool(policy, w, chainId, fees, turns, i);
    TurnCurrentIff(md5, before, key, fees, turns[i]);
    UntouchedUpToDate(w, before, r);
    UntouchedUpToDate(SyncPool(policy, before, key, fees, turns[i]), SyncPools(policy, w, chainId, fees, turns), r);
  }

  /** The record behind the base fingerprint of `key` is in the table, with its token rows. */
  ghost predicate MirroredAt(md5: PoolBase -> string, w: World, key: PoolKey) {
    forall r: PoolBase :: r.key == key && key in w.baseInfo && md5(r) == w.baseInfo[key].digest ==> Vouched(w, r)
  }

  lemma MirroredEverywhere(md5: PoolBase -> string, w: World)
    ensures Mirrored(md5, w) <==> forall key :: MirroredAt(md5, w, key)
  {
    if forall key :: MirroredAt(md5, w, key) {
      forall r: PoolBase | r.key in w.baseInfo && md5(r) == w.baseInfo[r.key].digest
        ensures Vouched(w, r)
      {
        assert MirroredAt(md5, w, r.key);
      }
    }
  }

  lemma UntouchedMirrored(md5: PoolBase -> string, w: World, t: World, key: PoolKey)
    requires Untouched(w, t, key) && MirroredAt(md5, w, key)
    ensures MirroredAt(md5, t, key)
  {
    forall r: PoolBase | r.key == key && key in t.baseInfo && md5(r) == t.baseInfo[key].digest
      ensures Vouched(t, r)
    {
      assert Vouched(w, r);
    }
  }

  /** A turn whose saves work leaves an up-to-date row, if the fingerprint it may trust is backed by one. */
  lemma TurnIsCurrent(md5: PoolBase -> string, w: World, key: PoolKey, fees: Fees, turn: Turn)
    requires MirroredAt(md5, w, key) && SavesWork(turn) && turn.base.Some?
    ensures UpToDate(SyncPool(ByFingerprint(md5), w, key, fees, turn), RecordAt(w, key, fees, turn))
  {
    BuildFrame(w, key, turn.base.value, fees, turn.faults);
    var built := BuildRecord(w, key, turn.base.value, fees, turn.faults);
    var r := built.record;
    WorkingSaveReachesRow(built.world, r);
    TurnCurrentIff(md5, w, key, fees, turn);
    if !NeedsWrite(ByFingerprint(md5), built.world.baseInfo, r, turn.time, turn.faults.getBase) {
      assert Vouched(w, r);
    }
  }

  // ----- The table shows the chain -----

  predicate Filled(info: BaseInfo) {
    && info.settleTime != "" && info.endTime != "" && info.interestRate != "" && info.maxSupply != ""
    && info.lendSupply != "" && info.borrowSupply != "" && info.martgageRate != "" && info.lendToken != ""
    && info.borrowToken != "" && info.state != "" && info.spCoin != "" && info.jpCoin != ""
    && info.autoLiquidateThreshold != ""
  }

  predicate Holds(row: map<Column, Value>, c: Column, text: string) {
    c in row && row[c] == Text(text)
  }

  /** The chain columns of a row, one by one. */
  predicate Shows(row: map<Column, Value>, info: BaseInfo) {
    && Holds(row, SettleTime, info.settleTime)
    && Holds(row, EndTime, info.endTime)
    && Holds(row, InterestRate, info.interestRate)
    && Holds(row, MaxSupply, info.maxSupply)
    && Holds(row, LendSupply, info.lendSupply)
    && Holds(row, BorrowSupply, info.borrowSupply)
    && Holds(row, MartgageRate, info.martgageRate)
    && Holds(row, LendToken, info.lendToken)
    && Holds(row, BorrowToken, info.borrowToken)
    && Holds(row, PoolState, info.state)
    && Holds(row, SpCoin, info.spCoin)
    && Holds(row, JpCoin, info.jpCoin)
    && Holds(row, AutoLiquidateThreshold, info.autoLiquidateThreshold)
  }

  lemma AbsorbedColumn(row: map<Column, Value>, r: PoolBase, c: Column, text: string)
    requires Absorbed(row, r) && c in Core && Holds(r.columns, c, text) && text != ""
    ensures Holds(row, c, text)
  {
    var merged := Overwrite(CoreOf(row), CoreOf(r.columns));
    assert c in merged && merged[c] == r.columns[c];
  }

  lemma AbsorbedShows(
    row: map<Column, Value>, key: PoolKey, info: BaseInfo, fees: Fees, borrow: T.Entry, lend: T.Entry)
    requires Absorbed(row, RecordOf(key, info, fees, borrow, lend)) && Filled(info)
    ensures Shows(row, info)
  {
    var r := RecordOf(key, info, fees, borrow, lend);
    AbsorbedColumn(row, r, SettleTime, info.settleTime);
    AbsorbedColumn(row, r, EndTime, info.endTime);
    AbsorbedColumn(row, r, InterestRate, info.interestRate);
    AbsorbedColumn(row, r, MaxSupply, info.maxSupply);
    AbsorbedColumn(row, r, LendSupply, info.lendSupply);
    AbsorbedColumn(row, r, BorrowSupply, info.borrowSupply);
    AbsorbedColumn(row, r, MartgageRate, info.martgageRate);
    AbsorbedColumn(row, r, LendToken, info.lendToken);
    AbsorbedColumn(row, r, BorrowToken, info.borrowToken);
    AbsorbedColumn(row, r, PoolState, info.state);
    AbsorbedColumn(row, r, SpCoin, info.spCoin);
    AbsorbedColumn(row, r, JpCoin, info.jpCoin);
    AbsorbedColumn(row, r, AutoLiquidateThreshold, info.autoLiquidateThreshold);
  }

  /** After a pass, the row of a pool that was read and whose save works shows the chain's values, whatever
      happened to the other pools or to Redis, if the fingerprint found at the start was backed by its row. */
  lemma PassShowsChain(
    md5: PoolBase -> string, w: World, chainId: string, fees: Fees, turns: seq<Turn>, i: nat)
    requires i < |turns| && SavesWork(turns[i]) && turns[i].base.Some? && Filled(turns[i].base.value)
    requires MirroredAt(md5, w, KeyOf(chainId, i))
    ensures var rows := SyncPools(ByFingerprint(md5), w, chainId, fees, turns).poolbases;
      KeyOf(chainId, i) in rows && Shows(rows[KeyOf(chainId, i)], turns[i].base.value)
  {
    var policy, key, turn := ByFingerprint(md5), KeyOf(chainId, i), turns[i];
    var before := SyncPools(policy, w, chainId, fees, turns[..i]);
    OneTurnPerPool(policy, w, chainId, fees, turns, i);
    UntouchedMirrored(md5, w, before, key);
    BuildFrame(before, key, turn.base.value, fees, turn.faults);
    TurnIsCurrent(md5, before, key, fees, turn);
    var after, r := SyncPool(policy, before, key, fees, turn), RecordAt(before, key, fees, turn);
    var borrow := T.Read(before.tokens, TokenKey(chainId, turn.base.value.borrowToken), turn.faults.borrowRead);
    var lend := T.Read(borrow.store, TokenKey(chainId, turn.base.value.lendToken), turn.faults.lendRead);
    AbsorbedShows(after.poolbases[key], key, turn.base.value, fees, borrow.entry, lend.entry);
  }

  /** The token summaries of an up-to-date row carry the fee and the cached fields of their own side. */
  lemma TurnShowsTokenInfo(md5: PoolBase -> string, w: World, key: PoolKey, fees: Fees, turn: Turn)
    requires MirroredAt(md5, w, key) && SavesWork(turn) && turn.base.Some?
    ensures var info := turn.base.value;
      var borrow := T.Read(w.tokens, TokenKey(key.chainId, info.borrowToken), turn.faults.borrowRead);
      var lend := T.Read(borrow.store, TokenKey(key.chainId, info.lendToken), turn.faults.lendRead).entry;
      var rows := SyncPool(ByFingerprint(md5), w, key, fees, turn).poolbases;
      && key in rows && LendTokenInfo in rows[key] && BorrowTokenInfo in rows[key]
      && rows[key][LendTokenInfo] == TokenJson(fees.lendFee, lend.logo, lend.symbol, lend.price)
      && rows[key][BorrowTokenInfo]
           == TokenJson(fees.borrowFee, borrow.entry.logo, borrow.entry.symbol, borrow.entry.price)
  {
    BuildFrame(w, key, turn.base.value, fees, turn.faults);
    TurnIsCurrent(md5, w, key, fees, turn);
    var r := RecordAt(w, key, fees, turn);
    var row := SyncPool(ByFingerprint(md5), w, key, fees, turn).poolbases[key];
    AbsorbedSummary(row, r, LendTokenInfo);
    AbsorbedSummary(row, r, BorrowTokenInfo);
  }

  lemma AbsorbedSummary(row: map<Column, Value>, r: PoolBase, c: Column)
    requires Absorbed(row, r) && c in Core && c in r.columns && r.columns[c].TokenJson?
    ensures c in row && row[c] == r.columns[c]
  {
    var merged := Overwrite(CoreOf(row), CoreOf(r.columns));
    assert c in merged && merged[c] == r.columns[c];
  }

  /** The symbols an error-free save stores are those of the token table, each on its own side. */
  lemma CleanSaveSymbols(w: World, r: PoolBase, now: int)
    ensures var saved := SavePoolBase(w, r, now, NoSaveFaults); var tokens := saved.world.tokens;
      && TokensPresent(tokens, r)
      && Holds(saved.record.columns, BorrowTokenSymbol,
           tokens.rows[TokenKey(r.key.chainId, TokenText(r, BorrowToken))].symbol)
      && Holds(saved.record.columns, LendTokenSymbol,
           tokens.rows[TokenKey(r.key.chainId, TokenText(r, LendToken))].symbol)
      && r.key in saved.world.poolbases
      && (forall c :: c in saved.record.columns && saved.record.columns[c] != Blank ==>
            c in saved.world.poolbases[r.key] && saved.world.poolbases[r.key][c] == saved.record.columns[c])
  {
    CleanTokensInsertOnlyMissing(w.tokens, r);
    var named := CleanTokens(w.tokens, r);
    var r2 := WithStamps(WithSymbols(r, named.symbols.value), r.key !in w.poolbases, now);
    var w1 := w.(tokens := named.tokens, attempts := w.attempts + {Attempt(BaseSave, r.key, now)});
    assert SavePoolBase(w, r, now, NoSaveFaults) == Saved(StoreRow(w1, r2, false), r2, true);
  }
}
