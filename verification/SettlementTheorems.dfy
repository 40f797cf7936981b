/**
 The settlement row is guarded by a fingerprint of the base record, as the base save left it.
 What that gets right, what it misses, and what failing saves cost.
 */
module SettlementTheorems {
  import opened Prelude
  import opened PoolSync
  import opened PoolSyncTheorems
  import opened PoolRowTheorems
  import opened PoolDriftTheorems
  import T = TokenCache

  // ----- A base write brings a settlement write with it -----

  predicate StampedBefore(r: PoolBase, bound: int) {
    UpdatedAt in r.columns && r.columns[UpdatedAt].Stamp? ==> r.columns[UpdatedAt].time < bound
  }

  /** The record behind the settlement fingerprint of `key` was filled in before `bound`. */
  ghost predicate OldStamps(md5: PoolBase -> string, w: World, key: PoolKey, bound: int) {
    key in w.dataInfo ==>
      forall r: PoolBase :: md5(r) == w.dataInfo[key].digest ==> StampedBefore(r, bound)
  }

  ghost predicate AllOldStamps(md5: PoolBase -> string, w: World, bound: int) {
    forall key :: OldStamps(md5, w, key, bound)
  }

  /** The record a save hands on is new in its time stamp, or untouched by the clock. */
  lemma SyncBaseStamps(md5: PoolBase -> string, w: World, r: PoolBase, now: int, f: PoolFaults)
    requires StampedBefore(r, now)
    ensures var saved := SyncBase(ByFingerprint(md5), w, r, now, f);
      && StampedBefore(saved.record, now + 1)
      && saved.record.key == r.key && saved.world.dataInfo == w.dataInfo
      && (NeedsWrite(ByFingerprint(md5), w.baseInfo, r, now, f.getBase) && saved.ok ==>
            !StampedBefore(saved.record, now))
  {
    SaveFrame(w, r, now, f.save);
    var saved := SavePoolBase(w, r, now, f.save);
    assert saved.record == r || saved.record.columns.Keys >= {LendTokenSymbol};
    assert StampedBefore(saved.record, now + 1);
  }

  lemma BuiltIsBlank(w: World, key: PoolKey, info: BaseInfo, fees: Fees, f: PoolFaults, bound: int)
    ensures StampedBefore(BuildRecord(w, key, info, fees, f).record, bound)
  {
  }

  ghost predicate DataSaved(w: World, key: PoolKey, time: int) {
    Attempt(DataSave, key, time) in w.attempts
  }

  /** This turn of `key` stores the base row. */
  predicate StoresBase(md5: PoolBase -> string, w: World, key: PoolKey, fees: Fees, turn: Turn) {
    turn.base.Some? &&
      var built := BuildRecord(w, key, turn.base.value, fees, turn.faults);
      && NeedsWrite(ByFingerprint(md5), built.world.baseInfo, built.record, turn.time, turn.faults.getBase)
      && SavePoolBase(built.world, built.record, turn.time, turn.faults.save).ok
  }

  lemma SyncPoolStamps(md5: PoolBase -> string, w: World, key: PoolKey, fees: Fees, turn: Turn)
    requires Injective(md5) && OldStamps(md5, w, key, turn.time)
    ensures var t := SyncPool(ByFingerprint(md5), w, key, fees, turn);
      && OldStamps(md5, t, key, turn.time + 1)
      && (forall k :: k != key ==>
            (k in t.dataInfo <==> k in w.dataInfo) && (k in w.dataInfo ==> t.dataInfo[k] == w.dataInfo[k]))
      && (StoresBase(md5, w, key, fees, turn) && turn.data.Some? ==> DataSaved(t, key, turn.time))
  {
    if turn.base.Some? {
      var now, f := turn.time, turn.faults;
      BuildFrame(w, key, turn.base.value, fees, f);
      BuiltIsBlank(w, key, turn.base.value, fees, f, now);
      var built := BuildRecord(w, key, turn.base.value, fees, f);
      SyncBaseStamps(md5, built.world, built.record, now, f);
      var saved := SyncBase(ByFingerprint(md5), built.world, built.record, now, f);
      if turn.data.Some? {
        SyncDataStamps(md5, saved.world, saved.record, turn.data.value, now, f);
      }
    }
  }

  lemma SyncDataStamps(md5: PoolBase -> string, w: World, r: PoolBase, data: DataInfo, now: int, f: PoolFaults)
    requires Injective(md5) && OldStamps(md5, w, r.key, now) && StampedBefore(r, now + 1)
    ensures var t := SyncData(ByFingerprint(md5), w, r, data, now, f);
      && OldStamps(md5, t, r.key, now + 1)
      && (forall k :: k != r.key ==>
            (k in t.dataInfo <==> k in w.dataInfo) && (k in w.dataInfo ==> t.dataInfo[k] == w.dataInfo[k]))
      && (!StampedBefore(r, now) ==> DataSaved(t, r.key, now))
  {
    var t := SyncData(ByFingerprint(md5), w, r, data, now, f);
    if NeedsWrite(ByFingerprint(md5), w.dataInfo, r, now, f.getData) {
      assert t.attempts == w.attempts + {Attempt(DataSave, r.key, now)};
    }
  }

  function Latest(turns: seq<Turn>, bound: int): int {
    if turns == [] then bound
    else
      var before, last := Latest(turns[..|turns| - 1], bound), turns[|turns| - 1].time;
      if last < before then before else last
  }

  /** Passes follow one another in time; inside a pass the turns come in any order. */
  ghost predicate Timed(events: seq<Event>, bound: int) {
    if events == [] then true
    else if events[0].Pass? && events[0].turns.Some? then
      var turns := events[0].turns.value;
      (forall t :: t in turns ==> bound <= t.time) && Timed(events[1..], Latest(turns, bound) + 1)
    else Timed(events[1..], bound)
  }

  /** Where the clock stands after a run. */
  function After(events: seq<Event>, bound: int): int {
    if events == [] then bound
    else if events[0].Pass? && events[0].turns.Some? then
      After(events[1..], Latest(events[0].turns.value, bound) + 1)
    else After(events[1..], bound)
  }

  lemma LaterBound(md5: PoolBase -> string, w: World, key: PoolKey, bound: int, later: int)
    requires OldStamps(md5, w, key, bound) && bound <= later
    ensures OldStamps(md5, w, key, later)
  {
  }

  lemma {:induction false} PassStamps(
    md5: PoolBase -> string, w: World, chainId: string, fees: Fees, turns: seq<Turn>, bound: int)
    requires Injective(md5) && AllOldStamps(md5, w, bound)
    requires forall t :: t in turns ==> bound <= t.time
    ensures var t := SyncPools(ByFingerprint(md5), w, chainId, fees, turns);
      && AllOldStamps(md5, t, Latest(turns, bound) + 1)
      && bound <= Latest(turns, bound)
      && (forall i: nat :: |turns| <= i ==> OldStamps(md5, t, KeyOf(chainId, i), bound))
  {
    var latest := Latest(turns, bound) + 1;
    if turns == [] {
      forall key
        ensures OldStamps(md5, w, key, latest)
      {
        LaterBound(md5, w, key, bound, latest);
      }
    } else {
      var n := |turns| - 1;
      var turn, key := turns[n], KeyOf(chainId, n);
      assert turn in turns;
      PassStamps(md5, w, chainId, fees, turns[..n], bound);
      var before := SyncPools(ByFingerprint(md5), w, chainId, fees, turns[..n]);
      LaterBound(md5, before, key, bound, turn.time);
      SyncPoolStamps(md5, before, key, fees, turn);
      var t := SyncPool(ByFingerprint(md5), before, key, fees, turn);
      forall k
        ensures OldStamps(md5, t, k, latest)
      {
        if k == key {
          LaterBound(md5, t, k, turn.time + 1, latest);
        } else {
          assert OldStamps(md5, before, k, Latest(turns[..n], bound) + 1);
          LaterBound(md5, t, k, Latest(turns[..n], bound) + 1, latest);
        }
      }
      forall i: nat | |turns| <= i
        ensures OldStamps(md5, t, KeyOf(chainId, i), bound)
      {
        assert OldStamps(md5, before, KeyOf(chainId, i), bound);
      }
    }
  }

  lemma {:induction false} RunStamps(md5: PoolBase -> string, w: World, events: seq<Event>, bound: int)
    requires Injective(md5) && AllOldStamps(md5, w, bound) && Timed(events, bound)
    ensures AllOldStamps(md5, Run(ByFingerprint(md5), w, events), After(events, bound))
    decreases |events|
  {
    if events != [] {
      var e := events[0];
      var next := Step(ByFingerprint(md5), w, e);
      if e.Pass? && e.turns.Some? {
        PassStamps(md5, w, e.chainId, e.fees, e.turns.value, bound);
        RunStamps(md5, next, events[1..], Latest(e.turns.value, bound) + 1);
      } else {
        forall key
          ensures OldStamps(md5, next, key, bound)
        {
          assert OldStamps(md5, w, key, bound);
        }
        RunStamps(md5, next, events[1..], bound);
      }
    }
  }

  /** In every run whose passes follow one another in time, a turn that stores the base row and reads the
      settlement data also saves the settlement row, whatever else failed before. */
  lemma {:induction false} BaseWriteForcesSettlementWrite(
    md5: PoolBase -> string, w: World, events: seq<Event>, bound: int,
    chainId: string, fees: Fees, turns: seq<Turn>, turn: Turn)
    requires Injective(md5) && Flushed(w) && Timed(events, bound)
    requires forall t :: t in turns + [turn] ==> After(events, bound) <= t.time
    requires var before := SyncPools(ByFingerprint(md5), Run(ByFingerprint(md5), w, events), chainId, fees, turns);
      StoresBase(md5, before, KeyOf(chainId, |turns|), fees, turn)
    requires turn.data.Some?
    ensures var start := Run(ByFingerprint(md5), w, events);
      DataSaved(SyncPools(ByFingerprint(md5), start, chainId, fees, turns + [turn]), KeyOf(chainId, |turns|), turn.time)
  {
    RunStamps(md5, w, events, bound);
    var start, now := Run(ByFingerprint(md5), w, events), After(events, bound);
    assert forall t :: t in turns ==> t in turns + [turn];
    PassStamps(md5, start, chainId, fees, turns, now);
    var before := SyncPools(ByFingerprint(md5), start, chainId, fees, turns);
    var key := KeyOf(chainId, |turns|);
    assert turn in turns + [turn];
    LaterBound(md5, before, key, now, turn.time);
    SyncPoolStamps(md5, before, key, fees, turn);
    assert (turns + [turn])[..|turns|] == turns;
  }

  // ----- What the guard misses -----

  lemma CachedRecord(w: World, key: PoolKey, info: BaseInfo, fees: Fees, f: PoolFaults)
    requires TokensCached(w, key, info) && f.borrowRead == T.NoFaults && f.lendRead == T.NoFaults
    ensures var b := BuildRecord(w, key, info, fees, f);
      && b.world == w
      && b.record == RecordOf(key, info, fees, w.tokens.redis[TokenKey(key.chainId, info.borrowToken)],
           w.tokens.redis[TokenKey(key.chainId, info.lendToken)])
  {
  }

  function Quiet(time: int, info: BaseInfo, data: DataInfo): Turn {
    Turn(time, Some(info), Some(data), NoPoolFaults)
  }

  predicate ShowsData(row: PoolData, data: DataInfo) {
    && (FinishAmountBorrow in row && row[FinishAmountBorrow] == Text(data.finishAmountBorrow))
    && (FinishAmountLend in row && row[FinishAmountLend] == Text(data.finishAmountLend))
    && (LiquidationAmounBorrow in row && row[LiquidationAmounBorrow] == Text(data.liquidationAmounBorrow))
    && (LiquidationAmounLend in row && row[LiquidationAmounLend] == Text(data.liquidationAmounLend))
    && (SettleAmountBorrow in row && row[SettleAmountBorrow] == Text(data.settleAmountBorrow))
    && (SettleAmountLend in row && row[SettleAmountLend] == Text(data.settleAmountLend))
  }

  predicate FilledData(data: DataInfo) {
    && data.finishAmountBorrow != "" && data.finishAmountLend != "" && data.liquidationAmounBorrow != ""
    && data.liquidationAmounLend != "" && data.settleAmountBorrow != "" && data.settleAmountLend != ""
  }

  lemma SavedDataShows(w: World, key: PoolKey, data: DataInfo, now: int)
    requires FilledData(data)
    ensures var t := SavePoolData(w, key, data, now, DataFaults(false, false, false));
      key in t.pooldata && ShowsData(t.pooldata[key], data)
  {
  }

  /** The first turn of a pool: both fingerprints are stored, of the plain and of the stamped record. */
  lemma FirstTurn(md5: PoolBase -> string, w: World, key: PoolKey, info: BaseInfo, fees: Fees, data: DataInfo, t: int)
    requires Injective(md5) && key !in w.baseInfo && key !in w.dataInfo && TokensCached(w, key, info)
    ensures var r := BuildRecord(w, key, info, fees, NoPoolFaults).record;
      var w1 := SyncPool(ByFingerprint(md5), w, key, fees, Quiet(t, info, data));
      && w1.tokens.redis == w.tokens.redis
      && key in w1.baseInfo && w1.baseInfo[key] == Fingerprint(md5(r), t + TTL)
      && key in w1.dataInfo && w1.dataInfo[key].digest != md5(r)
  {
    CachedRecord(w, key, info, fees, NoPoolFaults);
    var r := BuildRecord(w, key, info, fees, NoPoolFaults).record;
    SaveFrame(w, r, t, NoSaveFaults);
    CleanSave(w, r, t);
    CleanTokensInsertOnlyMissing(w.tokens, r);
    var saved := SyncBase(ByFingerprint(md5), w, r, t, NoPoolFaults);
    SyncDataFrame(ByFingerprint(md5), saved.world, saved.record, data, t, NoPoolFaults);
    assert r.columns[UpdatedAt] == Blank;
    assert md5(saved.record) != md5(r);
  }

  /** A later turn with the same record, base fingerprint still alive. */
  lemma RepeatTurn(md5: PoolBase -> string, w: World, key: PoolKey, info: BaseInfo, fees: Fees, data: DataInfo, t: int)
    requires TokensCached(w, key, info)
    requires var r := BuildRecord(w, key, info, fees, NoPoolFaults).record;
      key in w.baseInfo && w.baseInfo[key].digest == md5(r) && t <= w.baseInfo[key].expireAt
    ensures var r := BuildRecord(w, key, info, fees, NoPoolFaults).record;
      SyncPool(ByFingerprint(md5), w, key, fees, Quiet(t, info, data))
        == SyncData(ByFingerprint(md5), w, r, data, t, NoPoolFaults)
  {
    CachedRecord(w, key, info, fees, NoPoolFaults);
  }

  /** The fingerprint of the unstamped record under the base key, alive until `expireAt`. */
  ghost predicate Repeating(
    md5: PoolBase -> string, w: World, key: PoolKey, info: BaseInfo, fees: Fees, expireAt: int)
  {
    && TokensCached(w, key, info)
    && key in w.baseInfo
    && w.baseInfo[key] == Fingerprint(md5(BuildRecord(w, key, info, fees, NoPoolFaults).record), expireAt)
  }

  /** The second turn finds the stamped record's fingerprint under the settlement key, so it writes. */
  lemma SecondTurn(
    md5: PoolBase -> string, w: World, key: PoolKey, info: BaseInfo, fees: Fees, data: DataInfo, t: int, expireAt: int)
    requires Repeating(md5, w, key, info, fees, expireAt) && t <= expireAt && FilledData(data)
    requires key in w.dataInfo && w.dataInfo[key].digest != md5(BuildRecord(w, key, info, fees, NoPoolFaults).record)
    ensures var w2 := SyncPool(ByFingerprint(md5), w, key, fees, Quiet(t, info, data));
      var r := BuildRecord(w2, key, info, fees, NoPoolFaults).record;
      && Repeating(md5, w2, key, info, fees, expireAt)
      && key in w2.dataInfo && w2.dataInfo[key] == Fingerprint(md5(r), t + TTL)
      && key in w2.pooldata && ShowsData(w2.pooldata[key], data)
  {
    CachedRecord(w, key, info, fees, NoPoolFaults);
    RepeatTurn(md5, w, key, info, fees, data, t);
    var r := BuildRecord(w, key, info, fees, NoPoolFaults).record;
    SavedDataShows(w, key, data, t);
    SyncDataFrame(ByFingerprint(md5), w, r, data, t, NoPoolFaults);
    CachedRecord(SyncPool(ByFingerprint(md5), w, key, fees, Quiet(t, info, data)), key, info, fees, NoPoolFaults);
  }

  /** Settlement data that changes while the base record stays the same is not stored: of three turns inside
      the expiry the second still writes, because the save had stamped the record, and the third writes
      nothing, so the row keeps showing the second turn's data. */
  lemma SettlementRowLags(
    md5: PoolBase -> string, w: World, key: PoolKey, info: BaseInfo, fees: Fees,
    data1: DataInfo, data2: DataInfo, data3: DataInfo, t1: int, t2: int, t3: int)
    requires Injective(md5) && key !in w.baseInfo && key !in w.dataInfo && TokensCached(w, key, info)
    requires t1 <= t2 <= t3 <= t1 + TTL
    requires FilledData(data2)
    ensures var w1 := SyncPool(ByFingerprint(md5), w, key, fees, Quiet(t1, info, data1));
      var w2 := SyncPool(ByFingerprint(md5), w1, key, fees, Quiet(t2, info, data2));
      var w3 := SyncPool(ByFingerprint(md5), w2, key, fees, Quiet(t3, info, data3));
      && w3 == w2 && key in w2.pooldata && ShowsData(w2.pooldata[key], data2)
      && (data3 != data2 ==> !ShowsData(w3.pooldata[key], data3))
  {
    FirstTurn(md5, w, key, info, fees, data1, t1);
    var w1 := SyncPool(ByFingerprint(md5), w, key, fees, Quiet(t1, info, data1));
    CachedRecord(w, key, info, fees, NoPoolFaults);
    CachedRecord(w1, key, info, fees, NoPoolFaults);
    SecondTurn(md5, w1, key, info, fees, data2, t2, t1 + TTL);
    var w2 := SyncPool(ByFingerprint(md5), w1, key, fees, Quiet(t2, info, data2));
    RepeatTurn(md5, w2, key, info, fees, data3, t3);
  }

  // ----- What a failing save costs -----

  const CreateFails := NoPoolFaults.(save := NoSaveFaults.(rowCreate := true))

  /** A turn that reads only the base part. */
  function BaseOnly(time: int, info: BaseInfo, faults: PoolFaults): Turn {
    Turn(time, Some(info), None, faults)
  }

  lemma FailedCreate(w: World, r: PoolBase, now: int)
    requires r.key !in w.poolbases
    ensures var t := SavePoolBase(w, r, now, CreateFails.save).world;
      t.poolbases == w.poolbases && t.tokens.redis == w.tokens.redis
  {
  }

  lemma FailedTurn(policy: Policy, w: World, key: PoolKey, info: BaseInfo, fees: Fees, t: int)
    requires key !in w.baseInfo && key !in w.poolbases && TokensCached(w, key, info)
    ensures var w1 := SyncPool(policy, w, key, fees, BaseOnly(t, info, CreateFails));
      var r := BuildRecord(w, key, info, fees, NoPoolFaults).record;
      && w1.poolbases == w.poolbases && w1.tokens.redis == w.tokens.redis
      && w1.baseInfo == Remember(policy, w.baseInfo, r, t, false)
  {
    CachedRecord(w, key, info, fees, CreateFails);
    CachedRecord(w, key, info, fees, NoPoolFaults);
    var r := BuildRecord(w, key, info, fees, CreateFails).record;
    SaveFrame(w, r, t, CreateFails.save);
    FailedCreate(w, r, t);
  }

  /** A failed save is remembered as done: until the fingerprint expires the pool stays out of the table,
      while a sync that always writes stores it in the next turn. */
  lemma FailedSaveIsRemembered(
    md5: PoolBase -> string, w: World, key: PoolKey, info: BaseInfo, fees: Fees, t1: int, t2: int)
    requires key !in w.baseInfo && key !in w.poolbases && TokensCached(w, key, info)
    requires t1 <= t2 <= t1 + TTL
    ensures var failing, retry := BaseOnly(t1, info, CreateFails), BaseOnly(t2, info, NoPoolFaults);
      var skip := ByFingerprint(md5);
      && key !in SyncPool(skip, SyncPool(skip, w, key, fees, failing), key, fees, retry).poolbases
      && key in SyncPool(Always, SyncPool(Always, w, key, fees, failing), key, fees, retry).poolbases
  {
    CachedRecord(w, key, info, fees, NoPoolFaults);
    FailedTurn(ByFingerprint(md5), w, key, info, fees, t1);
    FailedTurn(Always, w, key, info, fees, t1);
    var failed := SyncPool(ByFingerprint(md5), w, key, fees, BaseOnly(t1, info, CreateFails));
    SkippedRetry(md5, w, failed, key, info, fees, t1, t2);
    WrittenRetry(SyncPool(Always, w, key, fees, BaseOnly(t1, info, CreateFails)), key, info, fees, t2);
  }

  lemma SkippedRetry(
    md5: PoolBase -> string, w: World, w1: World, key: PoolKey, info: BaseInfo, fees: Fees, t1: int, t2: int)
    requires TokensCached(w, key, info) && w1.tokens.redis == w.tokens.redis && t1 <= t2 <= t1 + TTL
    requires var r := BuildRecord(w, key, info, fees, NoPoolFaults).record;
      w1.baseInfo == Remember(ByFingerprint(md5), w.baseInfo, r, t1, false) && r.key == key
    ensures SyncPool(ByFingerprint(md5), w1, key, fees, BaseOnly(t2, info, NoPoolFaults)) == w1
  {
    CachedRecord(w, key, info, fees, NoPoolFaults);
    CachedRecord(w1, key, info, fees, NoPoolFaults);
  }

  lemma WrittenRetry(w1: World, key: PoolKey, info: BaseInfo, fees: Fees, t2: int)
    requires TokensCached(w1, key, info)
    ensures key in SyncPool(Always, w1, key, fees, BaseOnly(t2, info, NoPoolFaults)).poolbases
  {
    CachedRecord(w1, key, info, fees, NoPoolFaults);
    CleanSave(w1, BuildRecord(w1, key, info, fees, NoPoolFaults).record, t2);
  }
}
