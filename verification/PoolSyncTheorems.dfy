/** The sync that skips by fingerprint against the sync that always writes, and how stale it can get. */
module PoolSyncTheorems {
  import opened Prelude
  import opened PoolSync
  import T = TokenCache

  ghost predicate Injective(md5: PoolBase -> string) {
    forall q, r :: md5(q) == md5(r) ==> q == r
  }

  // ----- Core columns -----

  function CoreOf(columns: map<Column, Value>): map<Column, Value> {
    map c | c in columns && c in Core :: columns[c]
  }

  /** Storing record `r` would leave the core columns of `row` as they are. */
  ghost predicate Absorbed(row: map<Column, Value>, r: PoolBase) {
    Overwrite(CoreOf(row), CoreOf(r.columns)) == CoreOf(row)
  }

  lemma OverwriteCore(row: map<Column, Value>, columns: map<Column, Value>)
    ensures CoreOf(Overwrite(row, columns)) == Overwrite(CoreOf(row), CoreOf(columns))
  {
  }

  lemma OverwriteTwice(row: map<Column, Value>, columns: map<Column, Value>)
    ensures Overwrite(Overwrite(row, columns), columns) == Overwrite(row, columns)
  {
  }

  /** The core columns an error-free save leaves for record `r`. */
  function CoreStored(rows: map<PoolKey, map<Column, Value>>, r: PoolBase): map<Column, Value> {
    if r.key in rows then Overwrite(CoreOf(rows[r.key]), CoreOf(r.columns)) else CoreOf(r.columns)
  }

  const NoSaveFaults := SaveFaults(false, false, false, false, false, false, false)

  predicate TokensPresent(s: T.Store, r: PoolBase) {
    && TokenKey(r.key.chainId, TokenText(r, BorrowToken)) in s.rows
    && TokenKey(r.key.chainId, TokenText(r, LendToken)) in s.rows
  }

  function CleanTokens(s: T.Store, r: PoolBase): Symbols {
    SaveTokenInfo(s, r.key.chainId, TokenText(r, BorrowToken), TokenText(r, LendToken), NoSaveFaults)
  }

  lemma CleanTokensInsertOnlyMissing(s: T.Store, r: PoolBase)
    ensures var named := CleanTokens(s, r);
      && named.symbols.Some?
      && TokensPresent(named.tokens, r)
      && named.tokens.redis == s.redis && s.rows.Keys <= named.tokens.rows.Keys
      && (TokensPresent(s, r) ==> named.tokens == s)
  {
  }

  lemma StoreRowCore(w: World, r: PoolBase)
    ensures CoreOf(StoreRow(w, r, false).poolbases[r.key]) == CoreStored(w.poolbases, r)
  {
    if r.key in w.poolbases {
      OverwriteCore(w.poolbases[r.key], r.columns);
    } else {
      assert Overwrite(r.columns, r.columns) == r.columns;
    }
  }

  lemma FilledInCore(r: PoolBase, symbols: (string, string), isNew: bool, now: int)
    ensures CoreOf(WithStamps(WithSymbols(r, symbols), isNew, now).columns) == CoreOf(r.columns)
  {
  }

  /** An error-free save: the token rows are there, and one row took the record. */
  lemma CleanSave(w: World, r: PoolBase, now: int)
    ensures var saved := SavePoolBase(w, r, now, NoSaveFaults); var t := saved.world;
      && saved.ok && saved.record.key == r.key
      && t == w.(tokens := CleanTokens(w.tokens, r).tokens, attempts := t.attempts, poolbases := t.poolbases)
      && r.key in t.poolbases && t.poolbases == w.poolbases[r.key := t.poolbases[r.key]]
      && CoreOf(t.poolbases[r.key]) == CoreStored(w.poolbases, r)
      && UpdatedAt in saved.record.columns && saved.record.columns[UpdatedAt] == Stamp(now)
  {
    CleanTokensInsertOnlyMissing(w.tokens, r);
    var named := CleanTokens(w.tokens, r);
    var isNew := r.key !in w.poolbases;
    var r2 := WithStamps(WithSymbols(r, named.symbols.value), isNew, now);
    FilledInCore(r, named.symbols.value, isNew, now);
    var w1 := w.(tokens := named.tokens, attempts := w.attempts + {Attempt(BaseSave, r.key, now)});
    StoreRowCore(w1, r2);
    assert SavePoolBase(w, r, now, NoSaveFaults) == Saved(StoreRow(w1, r2, false), r2, true);
  }

  lemma StoredIsAbsorbed(rows: map<PoolKey, map<Column, Value>>, row: map<Column, Value>, r: PoolBase)
    requires CoreOf(row) == CoreStored(rows, r)
    ensures Absorbed(row, r)
  {
    if r.key in rows {
      OverwriteTwice(CoreOf(rows[r.key]), CoreOf(r.columns));
    }
  }

  /** What any save changes, failing or not. */
  lemma SaveFrame(w: World, r: PoolBase, now: int, f: SaveFaults)
    ensures var saved := SavePoolBase(w, r, now, f); var t := saved.world;
      && saved.record.key == r.key
      && t.baseInfo == w.baseInfo && t.dataInfo == w.dataInfo && t.pooldata == w.pooldata
      && t.attempts == w.attempts + {Attempt(BaseSave, r.key, now)}
      && w.tokens.rows.Keys <= t.tokens.rows.Keys
      && (forall k :: k != r.key ==> (k in t.poolbases <==> k in w.poolbases))
      && (forall k :: k != r.key && k in w.poolbases ==> t.poolbases[k] == w.poolbases[k])
  {
  }

  // ----- What a fingerprint in Redis vouches for -----

  /** The record behind each stored base fingerprint is in the table, with its token rows. */
  ghost predicate Mirrored(md5: PoolBase -> string, w: World) {
    forall r: PoolBase :: r.key in w.baseInfo && md5(r) == w.baseInfo[r.key].digest ==> Vouched(w, r)
  }

  ghost predicate Vouched(w: World, r: PoolBase) {
    r.key in w.poolbases && Absorbed(w.poolbases[r.key], r) && TokensPresent(w.tokens, r)
  }

  /** The table calls of a turn's base save succeed; anything else may fail. */
  predicate SavesWork(turn: Turn) {
    turn.faults.save == NoSaveFaults
  }

  /** The base save and the Redis write of its fingerprint succeed; anything else may fail. */
  predicate Clean(turn: Turn) {
    SavesWork(turn) && !turn.faults.setBase
  }

  predicate SameCore(w: World, a: World) {
    && w.poolbases.Keys == a.poolbases.Keys
    && forall k :: k in w.poolbases ==> CoreOf(w.poolbases[k]) == CoreOf(a.poolbases[k])
  }

  /** Run `w` skips by fingerprint, run `a` always writes. */
  ghost predicate Similar(md5: PoolBase -> string, w: World, a: World) {
    w.tokens == a.tokens && SameCore(w, a) && Mirrored(md5, w)
  }

  lemma SyncBaseMirrors(md5: PoolBase -> string, w: World, r: PoolBase, now: int, f: PoolFaults)
    requires Injective(md5) && Mirrored(md5, w)
    requires f.save == NoSaveFaults && !f.setBase
    ensures var saved := SyncBase(ByFingerprint(md5), w, r, now, f);
      && Mirrored(md5, saved.world) && Vouched(saved.world, r) && saved.record.key == r.key
      && (forall k :: k in w.poolbases && k != r.key ==>
            k in saved.world.poolbases && saved.world.poolbases[k] == w.poolbases[k])
  {
    if NeedsWrite(ByFingerprint(md5), w.baseInfo, r, now, f.getBase) {
      CleanSave(w, r, now);
      CleanTokensInsertOnlyMissing(w.tokens, r);
      var t := SyncBase(ByFingerprint(md5), w, r, now, f).world;
      StoredIsAbsorbed(w.poolbases, t.poolbases[r.key], r);
      forall q: PoolBase | q.key in t.baseInfo && md5(q) == t.baseInfo[q.key].digest
        ensures Vouched(t, q)
      {
        if q.key != r.key {
          assert Vouched(w, q);
        }
      }
    }
  }

  lemma SyncBaseSimilar(md5: PoolBase -> string, w: World, a: World, r: PoolBase, now: int, f: PoolFaults)
    requires Injective(md5) && Similar(md5, w, a)
    requires f.save == NoSaveFaults && !f.setBase
    ensures Similar(md5, SyncBase(ByFingerprint(md5), w, r, now, f).world, SyncBase(Always, a, r, now, f).world)
  {
    SyncBaseMirrors(md5, w, r, now, f);
    CleanSave(a, r, now);
    CleanTokensInsertOnlyMissing(a.tokens, r);
    if NeedsWrite(ByFingerprint(md5), w.baseInfo, r, now, f.getBase) {
      CleanSave(w, r, now);
      assert CoreStored(w.poolbases, r) == CoreStored(a.poolbases, r);
      var w1, a1 := SavePoolBase(w, r, now, NoSaveFaults).world, SavePoolBase(a, r, now, NoSaveFaults).world;
      SameCoreAfterWrite(w, a, w1, a1, r.key);
    } else {
      assert Vouched(w, r);
      SameCoreAfterWrite(w, a, w, SavePoolBase(a, r, now, NoSaveFaults).world, r.key);
    }
  }

  lemma SameCoreAfterWrite(w: World, a: World, w1: World, a1: World, key: PoolKey)
    requires SameCore(w, a)
    requires key in w1.poolbases && w1.poolbases == w.poolbases[key := w1.poolbases[key]]
    requires key in a1.poolbases && a1.poolbases == a.poolbases[key := a1.poolbases[key]]
    requires CoreOf(w1.poolbases[key]) == CoreOf(a1.poolbases[key])
    ensures SameCore(w1, a1)
  {
  }

  lemma SyncDataFrame(policy: Policy, w: World, r: PoolBase, data: DataInfo, now: int, f: PoolFaults)
    ensures var t := SyncData(policy, w, r, data, now, f);
      t == w.(dataInfo := t.dataInfo, pooldata := t.pooldata, attempts := t.attempts)
  {
  }

  lemma BuildFrame(w: World, key: PoolKey, info: BaseInfo, fees: Fees, f: PoolFaults)
    ensures var b := BuildRecord(w, key, info, fees, f);
      && b.world == w.(tokens := b.world.tokens) && b.world.tokens.rows == w.tokens.rows && b.record.key == key
  {
  }

  lemma SyncPoolMirrors(md5: PoolBase -> string, w: World, key: PoolKey, fees: Fees, turn: Turn)
    requires Injective(md5) && Mirrored(md5, w) && Clean(turn)
    ensures var t := SyncPool(ByFingerprint(md5), w, key, fees, turn);
      && Mirrored(md5, t)
      && (forall k :: k in w.poolbases && k != key ==> k in t.poolbases && t.poolbases[k] == w.poolbases[k])
      && (turn.base.Some? ==> Vouched(t, BuildRecord(w, key, turn.base.value, fees, turn.faults).record))
  {
    if turn.base.Some? {
      var built := BuildRecord(w, key, turn.base.value, fees, turn.faults);
      BuildFrame(w, key, turn.base.value, fees, turn.faults);
      assert forall r :: Vouched(w, r) ==> Vouched(built.world, r);
      assert Mirrored(md5, built.world);
      SyncBaseMirrors(md5, built.world, built.record, turn.time, turn.faults);
      var saved := SyncBase(ByFingerprint(md5), built.world, built.record, turn.time, turn.faults);
      if turn.data.Some? {
        SyncDataFrame(ByFingerprint(md5), saved.world, saved.record, turn.data.value, turn.time, turn.faults);
        var t := SyncPool(ByFingerprint(md5), w, key, fees, turn);
        assert forall r :: Vouched(saved.world, r) ==> Vouched(t, r);
      }
    }
  }

  lemma SyncPoolSimilar(md5: PoolBase -> string, w: World, a: World, key: PoolKey, fees: Fees, turn: Turn)
    requires Injective(md5) && Similar(md5, w, a) && Clean(turn)
    ensures Similar(md5, SyncPool(ByFingerprint(md5), w, key, fees, turn), SyncPool(Always, a, key, fees, turn))
  {
    SyncPoolMirrors(md5, w, key, fees, turn);
    if turn.base.Some? {
      var f, now := turn.faults, turn.time;
      var built := BuildRecord(w, key, turn.base.value, fees, f);
      var builtA := BuildRecord(a, key, turn.base.value, fees, f);
      BuildFrame(w, key, turn.base.value, fees, f);
      BuildFrame(a, key, turn.base.value, fees, f);
      assert built.record == builtA.record;
      assert forall r :: Vouched(w, r) ==> Vouched(built.world, r);
      SyncBaseSimilar(md5, built.world, builtA.world, built.record, now, f);
      if turn.data.Some? {
        var saved := SyncBase(ByFingerprint(md5), built.world, built.record, now, f);
        var savedA := SyncBase(Always, builtA.world, built.record, now, f);
        SyncDataFrame(ByFingerprint(md5), saved.world, saved.record, turn.data.value, now, f);
        SyncDataFrame(Always, savedA.world, savedA.record, turn.data.value, now, f);
      }
    }
  }

  lemma {:induction false} SyncPoolsSimilar(
    md5: PoolBase -> string, w: World, a: World, chainId: string, fees: Fees, turns: seq<Turn>)
    requires Injective(md5) && Similar(md5, w, a)
    requires forall t :: t in turns ==> Clean(t)
    ensures Similar(md5,
      SyncPools(ByFingerprint(md5), w, chainId, fees, turns), SyncPools(Always, a, chainId, fees, turns))
  {
    if turns != [] {
      var n := |turns| - 1;
      assert turns[n] in turns;
      SyncPoolsSimilar(md5, w, a, chainId, fees, turns[..n]);
      SyncPoolSimilar(md5, SyncPools(ByFingerprint(md5), w, chainId, fees, turns[..n]),
        SyncPools(Always, a, chainId, fees, turns[..n]), KeyOf(chainId, n), fees, turns[n]);
    }
  }

  ghost predicate CleanEvent(e: Event) {
    e.Pass? && e.turns.Some? ==> forall t :: t in e.turns.value ==> Clean(t)
  }

  lemma StepSimilar(md5: PoolBase -> string, w: World, a: World, e: Event)
    requires Injective(md5) && Similar(md5, w, a) && CleanEvent(e)
    ensures Similar(md5, Step(ByFingerprint(md5), w, e), Step(Always, a, e))
  {
    match e
    case Pass(chainId, fees, turns) =>
      if turns.Some? {
        SyncPoolsSimilar(md5, w, a, chainId, fees, turns.value);
      }
    case TokenWork(op) => TokenWorkSimilar(md5, w, a, op);
  }

  lemma TokenWorkSimilar(md5: PoolBase -> string, w: World, a: World, op: T.Op)
    requires Similar(md5, w, a)
    ensures Similar(md5, w.(tokens := T.Apply(w.tokens, op)), a.(tokens := T.Apply(a.tokens, op)))
  {
    var next := w.(tokens := T.Apply(w.tokens, op));
    TokenRowsStay(w.tokens, op);
    assert forall r :: Vouched(w, r) ==> Vouched(next, r);
  }

  lemma TokenRowsStay(s: T.Store, op: T.Op)
    ensures s.rows.Keys <= T.Apply(s, op).rows.Keys
  {
  }

  lemma {:induction false} RunSimilar(md5: PoolBase -> string, w: World, a: World, events: seq<Event>)
    requires Injective(md5) && Similar(md5, w, a)
    requires forall e :: e in events ==> CleanEvent(e)
    ensures Similar(md5, Run(ByFingerprint(md5), w, events), Run(Always, a, events))
    decreases |events|
  {
    if events != [] {
      assert events[0] in events;
      StepSimilar(md5, w, a, events[0]);
      RunSimilar(md5, Step(ByFingerprint(md5), w, events[0]), Step(Always, a, events[0]), events[1..]);
    }
  }

  /** With an injective fingerprint, flushed Redis, and base saves and writes of base fingerprints that all
      succeed, skipping by fingerprint leaves the same pools with the same core columns, and the same token
      rows, as writing in every pass. */
  lemma SkippingRefinesAlwaysWriting(md5: PoolBase -> string, w: World, events: seq<Event>)
    requires Injective(md5) && Flushed(w)
    requires forall e :: e in events ==> CleanEvent(e)
    ensures SameCore(Run(ByFingerprint(md5), w, events), Run(Always, w, events))
    ensures Run(ByFingerprint(md5), w, events).tokens == Run(Always, w, events).tokens
    ensures Mirrored(md5, Run(ByFingerprint(md5), w, events))
  {
    RunSimilar(md5, w, w, events);
  }

  // ----- Bounded staleness -----

  /** Each stored fingerprint was set right after a save attempt, thirty minutes before it expires. */
  ghost predicate Logged(w: World) {
    && (forall k :: k in w.baseInfo ==> Attempt(BaseSave, k, w.baseInfo[k].expireAt - TTL) in w.attempts)
    && (forall k :: k in w.dataInfo ==> Attempt(DataSave, k, w.dataInfo[k].expireAt - TTL) in w.attempts)
  }

  ghost predicate AttemptedSince(w: World, kind: Kind, key: PoolKey, time: int) {
    exists a :: a in w.attempts && a.kind == kind && a.key == key && time <= a.time
  }

  lemma SyncBaseLogged(md5: PoolBase -> string, w: World, r: PoolBase, now: int, f: PoolFaults)
    requires Logged(w)
    ensures var saved := SyncBase(ByFingerprint(md5), w, r, now, f);
      && Logged(saved.world) && w.attempts <= saved.world.attempts && saved.record.key == r.key
      && AttemptedSince(saved.world, BaseSave, r.key, now - TTL)
  {
    var saved := SyncBase(ByFingerprint(md5), w, r, now, f);
    if NeedsWrite(ByFingerprint(md5), w.baseInfo, r, now, f.getBase) {
      SaveFrame(w, r, now, f.save);
      assert Attempt(BaseSave, r.key, now) in saved.world.attempts;
    } else {
      assert Attempt(BaseSave, r.key, w.baseInfo[r.key].expireAt - TTL) in w.attempts;
    }
  }

  lemma SyncDataLogged(md5: PoolBase -> string, w: World, r: PoolBase, data: DataInfo, now: int, f: PoolFaults)
    requires Logged(w)
    ensures var t := SyncData(ByFingerprint(md5), w, r, data, now, f);
      && Logged(t) && w.attempts <= t.attempts && AttemptedSince(t, DataSave, r.key, now - TTL)
  {
    var t := SyncData(ByFingerprint(md5), w, r, data, now, f);
    if NeedsWrite(ByFingerprint(md5), w.dataInfo, r, now, f.getData) {
      assert Attempt(DataSave, r.key, now) in t.attempts;
      assert t.baseInfo == w.baseInfo;
    } else {
      assert Attempt(DataSave, r.key, w.dataInfo[r.key].expireAt - TTL) in w.attempts;
    }
  }

  lemma AttemptsGrow(w: World, t: World, kind: Kind, key: PoolKey, time: int)
    requires AttemptedSince(w, kind, key, time) && w.attempts <= t.attempts
    ensures AttemptedSince(t, kind, key, time)
  {
  }

  lemma SyncPoolLogged(md5: PoolBase -> string, w: World, key: PoolKey, fees: Fees, turn: Turn)
    requires Logged(w)
    ensures var t := SyncPool(ByFingerprint(md5), w, key, fees, turn);
      && Logged(t) && w.attempts <= t.attempts
      && (turn.base.Some? ==> AttemptedSince(t, BaseSave, key, turn.time - TTL))
      && (turn.base.Some? && turn.data.Some? ==> AttemptedSince(t, DataSave, key, turn.time - TTL))
  {
    if turn.base.Some? {
      BuildFrame(w, key, turn.base.value, fees, turn.faults);
      var built := BuildRecord(w, key, turn.base.value, fees, turn.faults);
      SyncBaseLogged(md5, built.world, built.record, turn.time, turn.faults);
      var saved := SyncBase(ByFingerprint(md5), built.world, built.record, turn.time, turn.faults);
      if turn.data.Some? {
        SyncDataLogged(md5, saved.world, saved.record, turn.data.value, turn.time, turn.faults);
        AttemptsGrow(saved.world, SyncPool(ByFingerprint(md5), w, key, fees, turn), BaseSave, key, turn.time - TTL);
      }
    }
  }

  /** Whatever fails, after a pass each pool whose chain reads succeeded has had its save attempts within TTL. */
  lemma {:induction false} PassAttemptsWithinTtl(
    md5: PoolBase -> string, w: World, chainId: string, fees: Fees, turns: seq<Turn>)
    requires Logged(w)
    ensures var t := SyncPools(ByFingerprint(md5), w, chainId, fees, turns);
      && Logged(t) && w.attempts <= t.attempts
      && (forall i :: 0 <= i < |turns| && turns[i].base.Some? ==>
            AttemptedSince(t, BaseSave, KeyOf(chainId, i), turns[i].time - TTL))
      && (forall i :: 0 <= i < |turns| && turns[i].base.Some? && turns[i].data.Some? ==>
            AttemptedSince(t, DataSave, KeyOf(chainId, i), turns[i].time - TTL))
  {
    if turns != [] {
      var n := |turns| - 1;
      PassAttemptsWithinTtl(md5, w, chainId, fees, turns[..n]);
      var before := SyncPools(ByFingerprint(md5), w, chainId, fees, turns[..n]);
      SyncPoolLogged(md5, before, KeyOf(chainId, n), fees, turns[n]);
      var t := SyncPools(ByFingerprint(md5), w, chainId, fees, turns);
      forall kind, key, time: int | AttemptedSince(before, kind, key, time)
        ensures AttemptedSince(t, kind, key, time)
      {
        AttemptsGrow(before, t, kind, key, time);
      }
    }
  }

  lemma {:induction false} RunLogged(md5: PoolBase -> string, w: World, events: seq<Event>)
    requires Logged(w)
    ensures Logged(Run(ByFingerprint(md5), w, events))
    decreases |events|
  {
    if events != [] {
      var e := events[0];
      if e.Pass? && e.turns.Some? {
        PassAttemptsWithinTtl(md5, w, e.chainId, e.fees, e.turns.value);
      }
      RunLogged(md5, Step(ByFingerprint(md5), w, e), events[1..]);
    }
  }

  /** The same, for the last pass of any run of the scheduler: no attempt is older than thirty minutes. */
  lemma StalenessIsBounded(
    md5: PoolBase -> string, w: World, events: seq<Event>, chainId: string, fees: Fees, turns: seq<Turn>, i: nat)
    requires Flushed(w)
    requires i < |turns| && turns[i].base.Some?
    ensures var t := Step(ByFingerprint(md5), Run(ByFingerprint(md5), w, events), Pass(chainId, fees, Some(turns)));
      && AttemptedSince(t, BaseSave, KeyOf(chainId, i), turns[i].time - 1800)
      && (turns[i].data.Some? ==> AttemptedSince(t, DataSave, KeyOf(chainId, i), turns[i].time - 1800))
  {
    RunLogged(md5, w, events);
    PassAttemptsWithinTtl(md5, Run(ByFingerprint(md5), w, events), chainId, fees, turns);
  }
}
