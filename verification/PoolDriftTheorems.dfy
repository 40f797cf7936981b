/**
 When the sync that skips by fingerprint drifts from the one that always writes: exactly when it trusts a
 fingerprint that no row backs, which a failing save or a failing Redis write can leave behind.
 */
module PoolDriftTheorems {
  import opened Prelude
  import opened PoolSync
  import opened PoolSyncTheorems
  import opened PoolRowTheorems
  import T = TokenCache

  // ----- In step exactly while every skip is right -----

  predicate InStep(w: World, a: World) {
    w.tokens == a.tokens && SameCore(w, a)
  }

  lemma BothWritten(w: World, a: World, r: PoolBase, now: int)
    requires InStep(w, a)
    ensures InStep(SavePoolBase(w, r, now, NoSaveFaults).world, SavePoolBase(a, r, now, NoSaveFaults).world)
  {
    CleanSave(w, r, now);
    CleanSave(a, r, now);
    var w1, a1 := SavePoolBase(w, r, now, NoSaveFaults).world, SavePoolBase(a, r, now, NoSaveFaults).world;
    SameCoreAfterWrite(w, a, w1, a1, r.key);
  }

  lemma OneWrittenIff(w: World, a: World, r: PoolBase, now: int)
    requires InStep(w, a)
    ensures InStep(w, SavePoolBase(a, r, now, NoSaveFaults).world) <==> Vouched(w, r)
  {
    CleanSave(a, r, now);
    CleanTokensInsertOnlyMissing(a.tokens, r);
    var a1 := SavePoolBase(a, r, now, NoSaveFaults).world;
    if Vouched(w, r) {
      SameCoreAfterWrite(w, a, w, a1, r.key);
    } else if r.key in w.poolbases && TokensPresent(w.tokens, r) {
      assert CoreOf(a1.poolbases[r.key]) != CoreOf(w.poolbases[r.key]);
    }
  }

  lemma SyncBaseInStepIff(md5: PoolBase -> string, w: World, a: World, r: PoolBase, now: int, f: PoolFaults)
    requires InStep(w, a) && f.save == NoSaveFaults
    ensures InStep(SyncBase(ByFingerprint(md5), w, r, now, f).world, SyncBase(Always, a, r, now, f).world) <==>
      NeedsWrite(ByFingerprint(md5), w.baseInfo, r, now, f.getBase) || Vouched(w, r)
  {
    var a1 := SyncBase(Always, a, r, now, f).world;
    assert a1.tokens == SavePoolBase(a, r, now, NoSaveFaults).world.tokens;
    assert a1.poolbases == SavePoolBase(a, r, now, NoSaveFaults).world.poolbases;
    if NeedsWrite(ByFingerprint(md5), w.baseInfo, r, now, f.getBase) {
      BothWritten(w, a, r, now);
    } else {
      OneWrittenIff(w, a, r, now);
    }
  }

  /** The turn's save is asked for, or the row and the token rows it skips over are as the save would leave them. */
  ghost predicate SkipsRightly(md5: PoolBase -> string, w: World, key: PoolKey, fees: Fees, turn: Turn) {
    turn.base.Some? ==>
      || NeedsWrite(ByFingerprint(md5), w.baseInfo, RecordAt(w, key, fees, turn), turn.time, turn.faults.getBase)
      || Vouched(w, RecordAt(w, key, fees, turn))
  }

  lemma DataKeepsStep(policy: Policy, w: World, r: PoolBase, data: DataInfo, now: int, f: PoolFaults)
    ensures var t := SyncData(policy, w, r, data, now, f);
      t.tokens == w.tokens && t.poolbases == w.poolbases && t.baseInfo == w.baseInfo
  {
    SyncDataFrame(policy, w, r, data, now, f);
  }

  lemma TurnInStepIff(md5: PoolBase -> string, w: World, a: World, key: PoolKey, fees: Fees, turn: Turn)
    requires InStep(w, a) && SavesWork(turn)
    ensures InStep(SyncPool(ByFingerprint(md5), w, key, fees, turn), SyncPool(Always, a, key, fees, turn)) <==>
      SkipsRightly(md5, w, key, fees, turn)
  {
    if turn.base.Some? {
      var f, now := turn.faults, turn.time;
      var built := BuildRecord(w, key, turn.base.value, fees, f);
      var builtA := BuildRecord(a, key, turn.base.value, fees, f);
      BuildFrame(w, key, turn.base.value, fees, f);
      BuildFrame(a, key, turn.base.value, fees, f);
      assert built.record == builtA.record && InStep(built.world, builtA.world);
      assert Vouched(built.world, built.record) <==> Vouched(w, built.record);
      SyncBaseInStepIff(md5, built.world, builtA.world, built.record, now, f);
      if turn.data.Some? {
        var saved := SyncBase(ByFingerprint(md5), built.world, built.record, now, f);
        var savedA := SyncBase(Always, builtA.world, built.record, now, f);
        DataKeepsStep(ByFingerprint(md5), saved.world, saved.record, turn.data.value, now, f);
        DataKeepsStep(Always, savedA.world, savedA.record, turn.data.value, now, f);
      }
    }
  }

  /** The two syncs agree before and after every turn of the pass. */
  ghost predicate PassInStep(
    md5: PoolBase -> string, w: World, a: World, chainId: string, fees: Fees, turns: seq<Turn>)
  {
    && InStep(SyncPools(ByFingerprint(md5), w, chainId, fees, turns), SyncPools(Always, a, chainId, fees, turns))
    && (turns != [] ==> PassInStep(md5, w, a, chainId, fees, turns[..|turns| - 1]))
  }

  ghost predicate PassSkipsRightly(
    md5: PoolBase -> string, w: World, chainId: string, fees: Fees, turns: seq<Turn>)
  {
    turns != [] ==>
      var n := |turns| - 1;
      && PassSkipsRightly(md5, w, chainId, fees, turns[..n])
      && SkipsRightly(
           md5, SyncPools(ByFingerprint(md5), w, chainId, fees, turns[..n]), KeyOf(chainId, n), fees, turns[n])
  }

  lemma {:induction false} PassInStepIff(
    md5: PoolBase -> string, w: World, a: World, chainId: string, fees: Fees, turns: seq<Turn>)
    requires InStep(w, a)
    requires forall t :: t in turns ==> SavesWork(t)
    ensures PassInStep(md5, w, a, chainId, fees, turns) <==> PassSkipsRightly(md5, w, chainId, fees, turns)
  {
    if turns != [] {
      var n := |turns| - 1;
      assert turns[n] in turns;
      PassInStepIff(md5, w, a, chainId, fees, turns[..n]);
      if PassInStep(md5, w, a, chainId, fees, turns[..n]) {
        TurnInStepIff(md5, SyncPools(ByFingerprint(md5), w, chainId, fees, turns[..n]),
          SyncPools(Always, a, chainId, fees, turns[..n]), KeyOf(chainId, n), fees, turns[n]);
      }
    }
  }

  predicate IsPass(e: Event) {
    e.Pass? && e.turns.Some?
  }

  /** The two syncs agree before and after every turn of the run. */
  ghost predicate RunInStep(md5: PoolBase -> string, w: World, a: World, events: seq<Event>)
    decreases |events|
  {
    && InStep(w, a)
    && (events != [] ==>
          && (IsPass(events[0]) ==> PassInStep(md5, w, a, events[0].chainId, events[0].fees, events[0].turns.value))
          && RunInStep(md5, Step(ByFingerprint(md5), w, events[0]), Step(Always, a, events[0]), events[1..]))
  }

  ghost predicate RunSkipsRightly(md5: PoolBase -> string, w: World, events: seq<Event>)
    decreases |events|
  {
    events != [] ==>
      && (IsPass(events[0]) ==>
            PassSkipsRightly(md5, w, events[0].chainId, events[0].fees, events[0].turns.value))
      && RunSkipsRightly(md5, Step(ByFingerprint(md5), w, events[0]), events[1..])
  }

  ghost predicate SavesWorkIn(e: Event) {
    IsPass(e) ==> forall t :: t in e.turns.value ==> SavesWork(t)
  }

  lemma {:induction false} RunInStepIff(md5: PoolBase -> string, w: World, a: World, events: seq<Event>)
    requires InStep(w, a)
    requires forall e :: e in events ==> SavesWorkIn(e)
    ensures RunInStep(md5, w, a, events) <==> RunSkipsRightly(md5, w, events)
    decreases |events|
  {
    if events != [] {
      var e := events[0];
      assert e in events;
      if IsPass(e) {
        PassInStepIff(md5, w, a, e.chainId, e.fees, e.turns.value);
      }
      var next, nextA := Step(ByFingerprint(md5), w, e), Step(Always, a, e);
      if !IsPass(e) || PassSkipsRightly(md5, w, e.chainId, e.fees, e.turns.value) {
        assert InStep(next, nextA);
        RunInStepIff(md5, next, nextA, events[1..]);
      }
    }
  }

  /** While the table calls of the saves succeed, and whatever Redis does, skipping stays in step with always
      writing at every turn of a run exactly when no skip trusts a fingerprint its row does not back. */
  lemma SkippingInStepIff(md5: PoolBase -> string, w: World, events: seq<Event>)
    requires forall e :: e in events ==> SavesWorkIn(e)
    ensures RunInStep(md5, w, w, events) <==> RunSkipsRightly(md5, w, events)
  {
    RunInStepIff(md5, w, w, events);
  }

  // ----- When a turn keeps every fingerprint backed -----

  function TokensAfterSave(w: World, r: PoolBase, f: SaveFaults): T.Store {
    SaveTokenInfo(w.tokens, r.key.chainId, TokenText(r, BorrowToken), TokenText(r, LendToken), f).tokens
  }

  /** The row as the save leaves it still has record `q`, of the fingerprint that a failing Redis write leaves. */
  ghost predicate OldFingerprintHolds(md5: PoolBase -> string, w: World, r: PoolBase, f: SaveFaults) {
    r.key in w.baseInfo && SaveReachesRow(w, r, f) ==>
      forall q: PoolBase :: q.key == r.key && md5(q) == w.baseInfo[r.key].digest ==>
        Overwrite(CoreStored(w.poolbases, r), CoreOf(q.columns)) == CoreStored(w.poolbases, r)
  }

  /** What keeps the fingerprints backed: no save is asked for; or its fingerprint is stored and its row and
      token rows are there; or the fingerprint stays the old one and the row still has that record. */
  ghost predicate KeepsMirror(md5: PoolBase -> string, w: World, r: PoolBase, now: int, f: PoolFaults) {
    || !NeedsWrite(ByFingerprint(md5), w.baseInfo, r, now, f.getBase)
    || (if f.setBase then OldFingerprintHolds(md5, w, r, f.save)
        else TokensPresent(TokensAfterSave(w, r, f.save), r) && (SaveReachesRow(w, r, f.save) || UpToDate(w, r)))
  }

  lemma SaveTokensGrow(w: World, r: PoolBase, now: int, f: SaveFaults)
    ensures SavePoolBase(w, r, now, f).world.tokens == TokensAfterSave(w, r, f)
    ensures w.tokens.rows.Keys <= TokensAfterSave(w, r, f).rows.Keys
  {
  }

  lemma StoredFingerprintMirrorIff(md5: PoolBase -> string, w: World, r: PoolBase, now: int, f: PoolFaults)
    requires Injective(md5)
    requires NeedsWrite(ByFingerprint(md5), w.baseInfo, r, now, f.getBase) && !f.setBase
    ensures MirroredAt(md5, SyncBase(ByFingerprint(md5), w, r, now, f).world, r.key) <==>
      TokensPresent(TokensAfterSave(w, r, f.save), r) && (SaveReachesRow(w, r, f.save) || UpToDate(w, r))
  {
    SaveTokensGrow(w, r, now, f.save);
    BaseRowCurrentIff(md5, w, r, now, f);
    var t := SyncBase(ByFingerprint(md5), w, r, now, f).world;
    assert t.baseInfo[r.key].digest == md5(r);
    assert MirroredAt(md5, t, r.key) <==> Vouched(t, r);
  }

  lemma OldFingerprintMirrorIff(md5: PoolBase -> string, w: World, r: PoolBase, now: int, f: PoolFaults)
    requires MirroredAt(md5, w, r.key)
    requires NeedsWrite(ByFingerprint(md5), w.baseInfo, r, now, f.getBase) && f.setBase
    ensures MirroredAt(md5, SyncBase(ByFingerprint(md5), w, r, now, f).world, r.key) <==>
      OldFingerprintHolds(md5, w, r, f.save)
  {
    SaveTokensGrow(w, r, now, f.save);
    SaveCoreIff(w, r, now, f.save);
    SaveFrame(w, r, now, f.save);
    var t := SyncBase(ByFingerprint(md5), w, r, now, f).world;
    forall q: PoolBase | q.key == r.key && r.key in w.baseInfo && md5(q) == w.baseInfo[r.key].digest
      ensures Vouched(t, q) <==> (SaveReachesRow(w, r, f.save) ==>
        Overwrite(CoreStored(w.poolbases, r), CoreOf(q.columns)) == CoreStored(w.poolbases, r))
    {
      assert Vouched(w, q);
    }
  }

  /** With any errors, a turn keeps every stored fingerprint backed by its row exactly when `KeepsMirror`. */
  lemma MirrorKeptIff(md5: PoolBase -> string, w: World, r: PoolBase, now: int, f: PoolFaults)
    requires Injective(md5) && Mirrored(md5, w)
    ensures Mirrored(md5, SyncBase(ByFingerprint(md5), w, r, now, f).world) <==> KeepsMirror(md5, w, r, now, f)
  {
    var t := SyncBase(ByFingerprint(md5), w, r, now, f).world;
    MirroredEverywhere(md5, w);
    MirroredEverywhere(md5, t);
    forall k | k != r.key
      ensures MirroredAt(md5, t, k)
    {
      assert MirroredAt(md5, w, k);
      SyncBaseElsewhere(ByFingerprint(md5), w, r, now, f, k);
      UntouchedMirrored(md5, w, t, k);
    }
    if NeedsWrite(ByFingerprint(md5), w.baseInfo, r, now, f.getBase) {
      assert MirroredAt(md5, w, r.key);
      if f.setBase {
        OldFingerprintMirrorIff(md5, w, r, now, f);
      } else {
        StoredFingerprintMirrorIff(md5, w, r, now, f);
      }
    }
  }

  /** The same for a whole turn: the token reads and the settlement half do not matter. */
  lemma TurnKeepsMirrorIff(md5: PoolBase -> string, w: World, key: PoolKey, fees: Fees, turn: Turn)
    requires Injective(md5) && Mirrored(md5, w) && turn.base.Some?
    ensures var built := BuildRecord(w, key, turn.base.value, fees, turn.faults);
      Mirrored(md5, SyncPool(ByFingerprint(md5), w, key, fees, turn)) <==>
        KeepsMirror(md5, built.world, built.record, turn.time, turn.faults)
  {
    BuildFrame(w, key, turn.base.value, fees, turn.faults);
    var built := BuildRecord(w, key, turn.base.value, fees, turn.faults);
    SameMirror(md5, w, built.world);
    MirrorKeptIff(md5, built.world, built.record, turn.time, turn.faults);
    if turn.data.Some? {
      var saved := SyncBase(ByFingerprint(md5), built.world, built.record, turn.time, turn.faults);
      DataKeepsStep(ByFingerprint(md5), saved.world, saved.record, turn.data.value, turn.time, turn.faults);
      SameMirror(md5, saved.world, SyncPool(ByFingerprint(md5), w, key, fees, turn));
    }
  }

  lemma SameMirror(md5: PoolBase -> string, w: World, t: World)
    requires w.baseInfo == t.baseInfo && w.poolbases == t.poolbases && w.tokens.rows == t.tokens.rows
    ensures Mirrored(md5, w) <==> Mirrored(md5, t)
  {
    assert forall r: PoolBase :: Vouched(w, r) <==> Vouched(t, r);
  }

  // ----- A failing Redis write -----

  /** Both tokens of the pool are cached, so building a record changes nothing. */
  predicate TokensCached(w: World, key: PoolKey, info: BaseInfo) {
    && TokenKey(key.chainId, info.borrowToken) in w.tokens.redis
    && TokenKey(key.chainId, info.lendToken) in w.tokens.redis
  }

  const NoPoolFaults := PoolFaults(
    T.NoFaults, T.NoFaults, false, false, NoSaveFaults, false, false, DataFaults(false, false, false))

  const SetFails := NoPoolFaults.(setBase := true)

  /** Three saves inside the expiry, of records q, r and q, the second failing to store its fingerprint: the
      third is skipped on the first one's fingerprint, and the row keeps r. */
  lemma FailedSetDrifts(md5: PoolBase -> string, w: World, q: PoolBase, r: PoolBase, t1: int, t2: int, t3: int)
    requires Injective(md5) && q.key == r.key && q.key !in w.baseInfo && t1 <= t2 <= t3 <= t1 + TTL
    requires SettleTime in q.columns && SettleTime in r.columns
    requires q.columns[SettleTime] != r.columns[SettleTime] && Blank !in {q.columns[SettleTime], r.columns[SettleTime]}
    ensures var skip := ByFingerprint(md5);
      var w1 := SyncBase(skip, w, q, t1, NoPoolFaults).world;
      var w2 := SyncBase(skip, w1, r, t2, SetFails).world;
      var w3 := SyncBase(skip, w2, q, t3, NoPoolFaults).world;
      w3 == w2 && UpToDate(w3, r) && !UpToDate(w3, q)
    ensures var a1 := SyncBase(Always, w, q, t1, NoPoolFaults).world;
      var a2 := SyncBase(Always, a1, r, t2, SetFails).world;
      UpToDate(SyncBase(Always, a2, q, t3, NoPoolFaults).world, q)
  {
    var skip := ByFingerprint(md5);
    CleanSave(w, q, t1);
    var w1 := SyncBase(skip, w, q, t1, NoPoolFaults).world;
    assert w1.baseInfo[q.key] == Fingerprint(md5(q), t1 + TTL);
    CleanSave(w1, r, t2);
    WorkingSaveReachesRow(w1, r);
    BaseRowCurrentIff(md5, w1, r, t2, SetFails);
    var w2 := SyncBase(skip, w1, r, t2, SetFails).world;
    assert w2.baseInfo == w1.baseInfo;
    OneRecordAtATime(w2, q, r);
    AlwaysIsCurrent(SyncBase(Always, SyncBase(Always, w, q, t1, NoPoolFaults).world, r, t2, SetFails).world, q, t3);
  }

  lemma OneRecordAtATime(w: World, q: PoolBase, r: PoolBase)
    requires q.key == r.key && UpToDate(w, r)
    requires SettleTime in q.columns && SettleTime in r.columns
    requires q.columns[SettleTime] != r.columns[SettleTime] && Blank !in {q.columns[SettleTime], r.columns[SettleTime]}
    ensures !UpToDate(w, q)
  {
    var row := CoreOf(w.poolbases[r.key]);
    assert Overwrite(row, CoreOf(r.columns))[SettleTime] == r.columns[SettleTime];
    assert Overwrite(row, CoreOf(q.columns))[SettleTime] == q.columns[SettleTime];
  }

  lemma AlwaysIsCurrent(a: World, q: PoolBase, now: int)
    ensures UpToDate(SyncBase(Always, a, q, now, NoPoolFaults).world, q)
  {
    CleanSave(a, q, now);
    StoredIsAbsorbed(a.poolbases, SavePoolBase(a, q, now, NoSaveFaults).world.poolbases[q.key], q);
  }
}
