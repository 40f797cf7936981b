/** poolService.go, poolBase.go and poolData.go as they run, proved against `PoolSync`. */
module PoolServiceCode {
  import opened Prelude
  import opened PoolSync
  import T = TokenCache
  import S = PoolSyncTheorems

  /** The Go struct PoolBase, which the saves fill in through the caller's pointer. */
  class PoolBaseRecord {
    const key: PoolKey
    var columns: map<Column, Value>

    function Model(): PoolBase
      reads this
    {
      PoolBase(key, columns)
    }

    constructor (record: PoolBase)
      ensures Model() == record
    {
      key, columns := record.key, record.columns;
    }
  }

  class PoolService {
    const md5: PoolBase -> string

    var tokens: T.Store
    var baseInfo: map<PoolKey, Fingerprint>
    var dataInfo: map<PoolKey, Fingerprint>
    var poolbases: map<PoolKey, map<Column, Value>>
    var pooldata: map<PoolKey, PoolData>

    ghost var attempts: set<Attempt>

    ghost function Model(): World
      reads this
    {
      World(tokens, baseInfo, dataInfo, poolbases, pooldata, attempts)
    }

    constructor (
      md5: PoolBase -> string, rows: map<T.Key, T.Row>,
      poolbases: map<PoolKey, map<Column, Value>>, pooldata: map<PoolKey, PoolData>)
      ensures this.md5 == md5 && Flushed(Model())
      ensures Model() == World(T.Store(map[], rows), map[], map[], poolbases, pooldata, {})
    {
      this.md5, this.poolbases, this.pooldata := md5, poolbases, pooldata;
      tokens, baseInfo, dataInfo, attempts := T.Store(map[], rows), map[], map[], {};
    }

    method EnsureTokenRow(chainId: string, token: string, lookupFails: bool, createFails: bool)
      returns (symbol: Option<string>)
      modifies this`tokens
      ensures tokens == T.EnsureRow(old(tokens), TokenKey(chainId, token), lookupFails, createFails)
      ensures symbol ==
        if lookupFails || TokenKey(chainId, token) !in tokens.rows then None
        else Some(tokens.rows[TokenKey(chainId, token)].symbol)
    {
      var k := TokenKey(chainId, token);
      if lookupFails {
        return None;
      }
      if k !in tokens.rows {
        if createFails {
          return None;
        }
        tokens := tokens.(rows := tokens.rows[k := T.EmptyRow]);
      }
      return Some(tokens.rows[k].symbol);
    }

    method SaveTokenInfo(base: PoolBaseRecord, f: SaveFaults) returns (symbols: Option<(string, string)>)
      modifies this`tokens
      ensures var r := base.Model();
        Symbols(tokens, symbols)
          == PoolSync.SaveTokenInfo(old(tokens), r.key.chainId, TokenText(r, BorrowToken), TokenText(r, LendToken), f)
    {
      var chainId := base.key.chainId;
      var borrow := EnsureTokenRow(chainId, TokenText(base.Model(), BorrowToken), f.borrowLookup, f.borrowCreate);
      if borrow.None? {
        return None;
      }
      var lend := EnsureTokenRow(chainId, TokenText(base.Model(), LendToken), f.lendLookup, f.lendCreate);
      if lend.None? {
        return None;
      }
      return Some((borrow.value, lend.value));
    }

    /** The tail of SavePoolBase: insert a missing row, then update it. */
    method StorePoolBase(base: PoolBaseRecord, isNew: bool, updateFails: bool)
      requires isNew == (base.key !in poolbases)
      modifies this`poolbases
      ensures Model() == StoreRow(old(Model()), base.Model(), updateFails)
    {
      if isNew {
        poolbases := poolbases[base.key := base.columns];
      }
      if !updateFails {
        poolbases := poolbases[base.key := Overwrite(poolbases[base.key], base.columns)];
      }
    }

    method SavePoolBase(base: PoolBaseRecord, now: int, f: SaveFaults) returns (ok: bool)
      modifies this, base
      ensures Saved(Model(), base.Model(), ok) == PoolSync.SavePoolBase(old(Model()), old(base.Model()), now, f)
    {
      ghost var r := base.Model();
      attempts := attempts + {Attempt(BaseSave, base.key, now)};
      var symbols := SaveTokenInfo(base, f);
      ghost var w1 := Model();
      if symbols.None? {
        return false;
      }
      base.columns := base.columns[BorrowTokenSymbol := Text(symbols.value.0)];
      base.columns := base.columns[LendTokenSymbol := Text(symbols.value.1)];
      ghost var r1 := WithSymbols(r, symbols.value);
      assert base.Model() == r1;
      if f.rowLookup {
        return false;
      }
      var isNew := base.key !in poolbases;
      if isNew {
        base.columns := base.columns[CreatedAt := Stamp(now)];
      }
      base.columns := base.columns[UpdatedAt := Stamp(now)];
      assert base.Model() == WithStamps(r1, isNew, now);
      assert Model() == w1;
      if isNew && f.rowCreate {
        return false;
      }
      StorePoolBase(base, isNew, f.rowUpdate);
      return !f.rowUpdate;
    }

    method SavePoolData(key: PoolKey, data: DataInfo, now: int, f: DataFaults)
      modifies this
      ensures Model() == PoolSync.SavePoolData(old(Model()), key, data, now, f)
    {
      attempts := attempts + {Attempt(DataSave, key, now)};
      var record := DataRecordOf(data)[DataUpdatedAt := Stamp(now)];
      if f.rowLookup {
        return;
      }
      if key !in pooldata {
        record := record[DataCreatedAt := Stamp(now)];
        if f.rowCreate {
          return;
        }
        pooldata := pooldata[key := record];
      }
      if !f.rowUpdate {
        pooldata := pooldata[key := Overwrite(pooldata[key], record)];
      }
    }

    /** The stored fingerprint under a key, if one is found, and the record's own. */
    method GetPoolMd5(base: PoolBaseRecord, cache: map<PoolKey, Fingerprint>, now: int, getFails: bool)
      returns (found: bool, stored: string, own: string)
      ensures own == md5(base.Model())
      ensures found <==> !getFails && Live(cache, base.key, now)
      ensures found ==> stored == cache[base.key].digest
    {
      own := md5(base.Model());
      found, stored := false, "";
      if !getFails && base.key in cache && now <= cache[base.key].expireAt {
        found, stored := true, cache[base.key].digest;
      }
    }

    method GetTokenInfo(k: T.Key, f: T.Faults) returns (e: T.Entry)
      modifies this`tokens
      ensures tokens == T.Read(old(tokens), k, f).store && e == T.Read(old(tokens), k, f).entry
    {
      var view := T.Read(tokens, k, f);
      tokens := view.store;
      return view.entry;
    }

    /** First half of the loop body: the base row behind its fingerprint. */
    method SyncBaseInfo(poolBase: PoolBaseRecord, now: int, f: PoolFaults)
      modifies this, poolBase
      ensures var saved := SyncBase(ByFingerprint(md5), old(Model()), old(poolBase.Model()), now, f);
        Model() == saved.world && poolBase.Model() == saved.record
    {
      var found, stored, own := GetPoolMd5(poolBase, baseInfo, now, f.getBase);
      if !found || own != stored {
        ghost var w, r := Model(), poolBase.Model();
        var _ := SavePoolBase(poolBase, now, f.save);
        assert baseInfo == w.baseInfo by {
          S.SaveFrame(w, r, now, f.save);
        }
        if !f.setBase {
          baseInfo := baseInfo[poolBase.key := Fingerprint(own, now + TTL)];
        }
      }
    }

    /** Second half: the settlement row behind the fingerprint of the same record. */
    method SyncDataInfo(poolBase: PoolBaseRecord, data: DataInfo, now: int, f: PoolFaults)
      modifies this
      ensures Model() == SyncData(ByFingerprint(md5), old(Model()), poolBase.Model(), data, now, f)
    {
      var found, stored, own := GetPoolMd5(poolBase, dataInfo, now, f.getData);
      if !found || own != stored {
        SavePoolData(poolBase.key, data, now, f.saveData);
        if !f.setData {
          dataInfo := dataInfo[poolBase.key := Fingerprint(own, now + TTL)];
        }
      }
    }

    /** One round of the loop; a return is the loop's `continue`. */
    method UpdateOnePool(key: PoolKey, fees: Fees, turn: Turn)
      modifies this
      ensures Model() == SyncPool(ByFingerprint(md5), old(Model()), key, fees, turn)
    {
      if turn.base.None? {
        return;
      }
      var info := turn.base.value;
      var borrowToken := GetTokenInfo(TokenKey(key.chainId, info.borrowToken), turn.faults.borrowRead);
      var lendToken := GetTokenInfo(TokenKey(key.chainId, info.lendToken), turn.faults.lendRead);
      var poolBase := new PoolBaseRecord(RecordOf(key, info, fees, borrowToken, lendToken));
      SyncBaseInfo(poolBase, turn.time, turn.faults);
      if turn.data.None? {
        return;
      }
      SyncDataInfo(poolBase, turn.data.value, turn.time, turn.faults);
    }

    method UpdatePoolInfo(chainId: string, fees: Fees, turns: Option<seq<Turn>>)
      modifies this
      ensures Model() == Step(ByFingerprint(md5), old(Model()), Pass(chainId, fees, turns))
    {
      if turns.None? {
        return;
      }
      var pools := turns.value;
      for i := 0 to |pools|
        invariant Model() == SyncPools(ByFingerprint(md5), old(Model()), chainId, fees, pools[..i])
      {
        UpdateOnePool(KeyOf(chainId, i), fees, pools[i]);
        assert pools[..i + 1][..i] == pools[..i];
      }
      assert pools[..|pools|] == pools;
    }
  }
}
