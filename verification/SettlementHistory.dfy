/**
 The settlement row over whole runs: it is saved exactly when the base record differs from the one whose
 fingerprint was stored last, and it is up to date exactly when that save reached it.
 */
module SettlementHistory {
  import opened Prelude
  import opened PoolSync
  import opened PoolSyncTheorems
  import opened PoolRowTheorems
  import opened PoolDriftTheorems
  import opened SettlementTheorems

  /** Per pool, the base record at its last settlement save, and at the last one whose fingerprint Redis took. */
  datatype History = History(saved: map<PoolKey, PoolBase>, remembered: map<PoolKey, PoolBase>)

  const NoHistory := History(map[], map[])

  predicate ReadsBoth(turn: Turn) {
    turn.base.Some? && turn.data.Some?
  }

  /** Where the turn stands, and with what record, when it comes to the settlement half. */
  function AtGuard(md5: PoolBase -> string, w: World, key: PoolKey, fees: Fees, turn: Turn): Saved
    requires turn.base.Some?
  {
    var built := BuildRecord(w, key, turn.base.value, fees, turn.faults);
    SyncBase(ByFingerprint(md5), built.world, built.record, turn.time, turn.faults)
  }

  predicate SavesSettlement(md5: PoolBase -> string, w: World, key: PoolKey, fees: Fees, turn: Turn)
    requires turn.base.Some?
  {
    var saved := AtGuard(md5, w, key, fees, turn);
    NeedsWrite(ByFingerprint(md5), saved.world.dataInfo, saved.record, turn.time, turn.faults.getData)
  }

  function AfterTurn(
    md5: PoolBase -> string, w: World, h: History, key: PoolKey, fees: Fees, turn: Turn): History
  {
    if !ReadsBoth(turn) || !SavesSettlement(md5, w, key, fees, turn) then h
    else
      var r := AtGuard(md5, w, key, fees, turn).record;
      History(h.saved[key := r], if turn.faults.setData then h.remembered else h.remembered[key := r])
  }

  function AfterTurns(
    md5: PoolBase -> string, w: World, h: History, chainId: string, fees: Fees, turns: seq<Turn>): History
  {
    if turns == [] then h
    else
      var n := |turns| - 1;
      AfterTurn(md5, SyncPools(ByFingerprint(md5), w, chainId, fees, turns[..n]),
        AfterTurns(md5, w, h, chainId, fees, turns[..n]), KeyOf(chainId, n), fees, turns[n])
  }

  function AfterRun(md5: PoolBase -> string, w: World, h: History, events: seq<Event>): History
    decreases |events|
  {
    if events == [] then h
    else
      var e := events[0];
      var next := if IsPass(e) then AfterTurns(md5, w, h, e.chainId, e.fees, e.turns.value) else h;
      AfterRun(md5, Step(ByFingerprint(md5), w, e), next, events[1..])
  }

  // ----- The settlement fingerprints are those of the records remembered -----

  ghost predicate Tracks(md5: PoolBase -> string, w: World, h: History) {
    && w.dataInfo.Keys == h.remembered.Keys
    && (forall k :: k in w.dataInfo ==> w.dataInfo[k].digest == md5(h.remembered[k]))
  }

  lemma GuardFrame(md5: PoolBase -> string, w: World, key: PoolKey, fees: Fees, turn: Turn)
    requires turn.base.Some?
    ensures var saved := AtGuard(md5, w, key, fees, turn);
      && saved.record.key == key && saved.world.dataInfo == w.dataInfo && saved.world.pooldata == w.pooldata
  {
    BuildFrame(w, key, turn.base.value, fees, turn.faults);
    var built := BuildRecord(w, key, turn.base.value, fees, turn.faults);
    SaveFrame(built.world, built.record, turn.time, turn.faults.save);
  }

  lemma TurnTracks(md5: PoolBase -> string, w: World, h: History, key: PoolKey, fees: Fees, turn: Turn)
    requires Tracks(md5, w, h)
    ensures Tracks(md5, SyncPool(ByFingerprint(md5), w, key, fees, turn), AfterTurn(md5, w, h, key, fees, turn))
  {
    if turn.base.Some? {
      GuardFrame(md5, w, key, fees, turn);
    } else {
      assert AfterTurn(md5, w, h, key, fees, turn) == h;
    }
  }

  lemma {:induction false} TurnsTrack(
    md5: PoolBase -> string, w: World, h: History, chainId: string, fees: Fees, turns: seq<Turn>)
    requires Tracks(md5, w, h)
    ensures Tracks(md5, SyncPools(ByFingerprint(md5), w, chainId, fees, turns),
      AfterTurns(md5, w, h, chainId, fees, turns))
  {
    if turns != [] {
      var n := |turns| - 1;
      TurnsTrack(md5, w, h, chainId, fees, turns[..n]);
      TurnTracks(md5, SyncPools(ByFingerprint(md5), w, chainId, fees, turns[..n]),
        AfterTurns(md5, w, h, chainId, fees, turns[..n]), KeyOf(chainId, n), fees, turns[n]);
    }
  }

  lemma {:induction false} RunTracks(md5: PoolBase -> string, w: World, h: History, events: seq<Event>)
    requires Tracks(md5, w, h)
    ensures Tracks(md5, Run(ByFingerprint(md5), w, events), AfterRun(md5, w, h, events))
    decreases |events|
  {
    if events != [] {
      var e := events[0];
      if IsPass(e) {
        TurnsTrack(md5, w, h, e.chainId, e.fees, e.turns.value);
        var after := AfterTurns(md5, w, h, e.chainId, e.fees, e.turns.value);
        RunTracks(md5, Step(ByFingerprint(md5), w, e), after, events[1..]);
      } else {
        RunTracks(md5, Step(ByFingerprint(md5), w, e), h, events[1..]);
      }
    }
  }

  // ----- When the settlement row is saved -----

  /** The fingerprint of record `r` is found under the settlement key. */
  predicate Recognised(w: World, h: History, key: PoolKey, r: PoolBase, turn: Turn) {
    && !turn.faults.getData && Live(w.dataInfo, key, turn.time)
    && key in h.remembered && h.remembered[key] == r
  }

  lemma TurnSavesIff(md5: PoolBase -> string, w: World, h: History, key: PoolKey, fees: Fees, turn: Turn)
    requires Injective(md5) && Tracks(md5, w, h) && ReadsBoth(turn)
    ensures SavesSettlement(md5, w, key, fees, turn) <==>
      !Recognised(w, h, key, AtGuard(md5, w, key, fees, turn).record, turn)
    ensures SavesSettlement(md5, w, key, fees, turn) ==>
      DataSaved(SyncPool(ByFingerprint(md5), w, key, fees, turn), key, turn.time)
  {
    GuardFrame(md5, w, key, fees, turn);
    var saved := AtGuard(md5, w, key, fees, turn);
    var t := SyncData(ByFingerprint(md5), saved.world, saved.record, turn.data.value, turn.time, turn.faults);
    assert SyncPool(ByFingerprint(md5), w, key, fees, turn) == t;
    if SavesSettlement(md5, w, key, fees, turn) {
      assert Attempt(DataSave, key, turn.time) in t.attempts;
    }
  }

  lemma {:induction false} AttemptsStay(
    md5: PoolBase -> string, w: World, chainId: string, fees: Fees, turns: seq<Turn>, from: nat)
    requires from <= |turns|
    ensures SyncPools(ByFingerprint(md5), w, chainId, fees, turns[..from]).attempts
         <= SyncPools(ByFingerprint(md5), w, chainId, fees, turns).attempts
    decreases |turns|
  {
    if from == |turns| {
      assert turns[..from] == turns;
    } else {
      var n := |turns| - 1;
      assert turns[..n][..from] == turns[..from];
      AttemptsStay(md5, w, chainId, fees, turns[..n], from);
      TurnAttempts(md5, SyncPools(ByFingerprint(md5), w, chainId, fees, turns[..n]), KeyOf(chainId, n), fees, turns[n]);
    }
  }

  lemma TurnAttempts(md5: PoolBase -> string, w: World, key: PoolKey, fees: Fees, turn: Turn)
    ensures w.attempts <= SyncPool(ByFingerprint(md5), w, key, fees, turn).attempts
  {
    if turn.base.Some? {
      BuildFrame(w, key, turn.base.value, fees, turn.faults);
      var built := BuildRecord(w, key, turn.base.value, fees, turn.faults);
      SaveFrame(built.world, built.record, turn.time, turn.faults.save);
      var saved := AtGuard(md5, w, key, fees, turn);
      assert w.attempts <= saved.world.attempts;
      if turn.data.Some? {
        DataAttempts(md5, saved.world, saved.record, turn.data.value, turn.time, turn.faults);
      }
    }
  }

  lemma DataAttempts(md5: PoolBase -> string, w: World, r: PoolBase, data: DataInfo, now: int, f: PoolFaults)
    ensures w.attempts <= SyncData(ByFingerprint(md5), w, r, data, now, f).attempts
  {
  }

  /** The state and the history that turn `i` of a pass finds, the pass coming after `events`. */
  function Before(
    md5: PoolBase -> string, w: World, events: seq<Event>, chainId: string, fees: Fees, turns: seq<Turn>, i: nat): World
    requires i <= |turns|
  {
    SyncPools(ByFingerprint(md5), Run(ByFingerprint(md5), w, events), chainId, fees, turns[..i])
  }

  function HistoryBefore(
    md5: PoolBase -> string, w: World, events: seq<Event>, chainId: string, fees: Fees, turns: seq<Turn>,
    i: nat): History
    requires i <= |turns|
  {
    AfterTurns(md5, Run(ByFingerprint(md5), w, events), AfterRun(md5, w, NoHistory, events), chainId, fees, turns[..i])
  }

  lemma RunHistoryTracks(
    md5: PoolBase -> string, w: World, events: seq<Event>, chainId: string, fees: Fees, turns: seq<Turn>, i: nat)
    requires Flushed(w) && i <= |turns|
    ensures Tracks(md5, Before(md5, w, events, chainId, fees, turns, i),
      HistoryBefore(md5, w, events, chainId, fees, turns, i))
  {
    assert Tracks(md5, w, NoHistory);
    RunTracks(md5, w, NoHistory, events);
    TurnsTrack(md5, Run(ByFingerprint(md5), w, events), AfterRun(md5, w, NoHistory, events), chainId, fees, turns[..i]);
  }

  /** In every run from flushed Redis, with any failures, a turn that reads both parts of a pool saves its
      settlement row exactly when it does not recognise the record: the fingerprint cannot be read, has
      expired, or is that of another record than the one the turn has at the guard. */
  lemma SettlementSavedIff(
    md5: PoolBase -> string, w: World, events: seq<Event>, chainId: string, fees: Fees, turns: seq<Turn>, i: nat)
    requires Injective(md5) && Flushed(w)
    requires i < |turns| && ReadsBoth(turns[i])
    ensures var before, key := Before(md5, w, events, chainId, fees, turns, i), KeyOf(chainId, i);
      var h := HistoryBefore(md5, w, events, chainId, fees, turns, i);
      var after := Before(md5, w, events, chainId, fees, turns, |turns|);
      && (SavesSettlement(md5, before, key, fees, turns[i]) <==>
            !Recognised(before, h, key, AtGuard(md5, before, key, fees, turns[i]).record, turns[i]))
      && (SavesSettlement(md5, before, key, fees, turns[i]) ==> DataSaved(after, key, turns[i].time))
  {
    var before, key := Before(md5, w, events, chainId, fees, turns, i), KeyOf(chainId, i);
    RunHistoryTracks(md5, w, events, chainId, fees, turns, i);
    TurnSavesIff(md5, before, HistoryBefore(md5, w, events, chainId, fees, turns, i), key, fees, turns[i]);
    var start := Run(ByFingerprint(md5), w, events);
    assert turns[..i + 1][..i] == turns[..i] && turns[..|turns|] == turns;
    AttemptsStay(md5, start, chainId, fees, turns, i + 1);
  }

  // ----- In terms of the last settlement save -----

  predicate SetsWork(turns: seq<Turn>) {
    forall t :: t in turns ==> !t.faults.setData
  }

  predicate SetsWorkIn(e: Event) {
    IsPass(e) ==> SetsWork(e.turns.value)
  }

  lemma {:induction false} TurnsRememberAll(
    md5: PoolBase -> string, w: World, h: History, chainId: string, fees: Fees, turns: seq<Turn>)
    requires h.saved == h.remembered && SetsWork(turns)
    ensures var after := AfterTurns(md5, w, h, chainId, fees, turns); after.saved == after.remembered
  {
    if turns != [] {
      assert turns[|turns| - 1] in turns;
      TurnsRememberAll(md5, w, h, chainId, fees, turns[..|turns| - 1]);
    }
  }

  lemma {:induction false} RunRemembersAll(md5: PoolBase -> string, w: World, h: History, events: seq<Event>)
    requires h.saved == h.remembered
    requires forall e :: e in events ==> SetsWorkIn(e)
    ensures var after := AfterRun(md5, w, h, events); after.saved == after.remembered
    decreases |events|
  {
    if events != [] {
      var e := events[0];
      assert e in events;
      if IsPass(e) {
        TurnsRememberAll(md5, w, h, e.chainId, e.fees, e.turns.value);
      }
      var next := if IsPass(e) then AfterTurns(md5, w, h, e.chainId, e.fees, e.turns.value) else h;
      RunRemembersAll(md5, Step(ByFingerprint(md5), w, e), next, events[1..]);
    }
  }

  /** While Redis takes the settlement fingerprints, the settlement row is rewritten in every pass whose base
      record, at the guard, differs from the one at the pool's last settlement save. */
  lemma SettlementFollowsRecord(
    md5: PoolBase -> string, w: World, events: seq<Event>, chainId: string, fees: Fees, turns: seq<Turn>, i: nat)
    requires Injective(md5) && Flushed(w)
    requires i < |turns| && ReadsBoth(turns[i])
    requires (forall e :: e in events ==> SetsWorkIn(e)) && SetsWork(turns[..i])
    requires var before, key := Before(md5, w, events, chainId, fees, turns, i), KeyOf(chainId, i);
      var h := HistoryBefore(md5, w, events, chainId, fees, turns, i);
      key in h.saved ==> h.saved[key] != AtGuard(md5, before, key, fees, turns[i]).record
    ensures DataSaved(Before(md5, w, events, chainId, fees, turns, |turns|), KeyOf(chainId, i), turns[i].time)
  {
    RunRemembersAll(md5, w, NoHistory, events);
    TurnsRememberAll(md5, Run(ByFingerprint(md5), w, events), AfterRun(md5, w, NoHistory, events), chainId, fees,
      turns[..i]);
    SettlementSavedIff(md5, w, events, chainId, fees, turns, i);
  }

  const DataSetFails := NoPoolFaults.(setData := true)

  /** With a failing Redis write it is not: of three turns with records q, r and q inside the expiry, the second
      saves but cannot store its fingerprint, and the third is skipped although its record is not the last one. */
  lemma FailedDataSetMisses(
    md5: PoolBase -> string, w: World, q: PoolBase, r: PoolBase,
    data1: DataInfo, data2: DataInfo, data3: DataInfo, t1: int, t2: int, t3: int)
    requires Injective(md5) && q.key == r.key && q != r && q.key !in w.dataInfo && t1 <= t2 <= t3 <= t1 + TTL
    ensures var skip := ByFingerprint(md5);
      var w1 := SyncData(skip, w, q, data1, t1, NoPoolFaults);
      var w2 := SyncData(skip, w1, r, data2, t2, DataSetFails);
      DataSaved(w2, r.key, t2) && SyncData(skip, w2, q, data3, t3, NoPoolFaults) == w2
  {
    var w1 := SyncData(ByFingerprint(md5), w, q, data1, t1, NoPoolFaults);
    assert w1.dataInfo[q.key] == Fingerprint(md5(q), t1 + TTL);
    assert SyncData(ByFingerprint(md5), w1, r, data2, t2, DataSetFails).dataInfo == w1.dataInfo;
  }

  // ----- When the settlement row is up to date -----

  predicate ShowsSettlement(w: World, key: PoolKey, data: DataInfo) {
    key in w.pooldata && ShowsData(w.pooldata[key], data)
  }

  /** The errors of the save spare its write of the row; a new row survives a failing second write. */
  predicate DataSaveReachesRow(w: World, key: PoolKey, f: DataFaults) {
    !f.rowLookup && (if key in w.pooldata then !f.rowUpdate else !f.rowCreate)
  }

  lemma SaveShowsIff(w: World, key: PoolKey, data: DataInfo, now: int, f: DataFaults)
    requires FilledData(data)
    ensures ShowsSettlement(SavePoolData(w, key, data, now, f), key, data) <==>
      DataSaveReachesRow(w, key, f) || ShowsSettlement(w, key, data)
  {
    SavedDataShows(w, key, data, now);
  }

  /** From any state and with any errors, the settlement row shows what was read exactly when the guard asked
      for a save that reached the row, or the row showed it before. */
  lemma SettlementRowCurrentIff(
    md5: PoolBase -> string, w: World, r: PoolBase, data: DataInfo, now: int, f: PoolFaults)
    requires FilledData(data)
    ensures ShowsSettlement(SyncData(ByFingerprint(md5), w, r, data, now, f), r.key, data) <==>
      || (NeedsWrite(ByFingerprint(md5), w.dataInfo, r, now, f.getData) && DataSaveReachesRow(w, r.key, f.saveData))
      || ShowsSettlement(w, r.key, data)
  {
    SaveShowsIff(w, r.key, data, now, f.saveData);
  }

  /** In every run from flushed Redis, with any failures, the settlement row of a pool shows after the pass what
      its turn read exactly when the turn did not recognise the record and its save reached the row, or the row
      showed it before the pass. */
  lemma SettlementCurrentIff(
    md5: PoolBase -> string, w: World, events: seq<Event>, chainId: string, fees: Fees, turns: seq<Turn>, i: nat)
    requires Injective(md5) && Flushed(w)
    requires i < |turns| && ReadsBoth(turns[i]) && FilledData(turns[i].data.value)
    ensures var before, key := Before(md5, w, events, chainId, fees, turns, i), KeyOf(chainId, i);
      var h := HistoryBefore(md5, w, events, chainId, fees, turns, i);
      var r := AtGuard(md5, before, key, fees, turns[i]).record;
      ShowsSettlement(Before(md5, w, events, chainId, fees, turns, |turns|), key, turns[i].data.value) <==>
        || (!Recognised(before, h, key, r, turns[i]) && DataSaveReachesRow(before, key, turns[i].faults.saveData))
        || ShowsSettlement(Run(ByFingerprint(md5), w, events), key, turns[i].data.value)
  {
    var start, key, turn := Run(ByFingerprint(md5), w, events), KeyOf(chainId, i), turns[i];
    var before := Before(md5, w, events, chainId, fees, turns, i);
    SettlementSavedIff(md5, w, events, chainId, fees, turns, i);
    GuardFrame(md5, before, key, fees, turn);
    var saved := AtGuard(md5, before, key, fees, turn);
    SettlementRowCurrentIff(md5, saved.world, saved.record, turn.data.value, turn.time, turn.faults);
    OneTurnPerPool(ByFingerprint(md5), start, chainId, fees, turns, i);
    assert turns[..|turns|] == turns;
  }
}
