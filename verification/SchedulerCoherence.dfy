/** The token cache stays coherent through whole runs of the scheduler, pool passes included. */
module SchedulerCoherence {
  import opened Prelude
  import opened PoolSync
  import opened PoolSyncTheorems
  import T = TokenCache
  import C = TokenCacheTheorems

  lemma SaveTokenInfoCoherent(s: T.Store, chainId: string, borrow: string, lend: string, f: SaveFaults)
    requires C.Coherent(s)
    ensures C.Coherent(SaveTokenInfo(s, chainId, borrow, lend, f).tokens)
  {
    var b, l := TokenKey(chainId, borrow), TokenKey(chainId, lend);
    var s1 := T.EnsureRow(s, b, f.borrowLookup, f.borrowCreate);
    C.ApplyCoherent(s, T.InsertOp(b, f.borrowLookup, f.borrowCreate));
    C.ApplyCoherent(s1, T.InsertOp(l, f.lendLookup, f.lendCreate));
  }

  lemma SaveTokens(w: World, r: PoolBase, now: int, f: SaveFaults)
    ensures SavePoolBase(w, r, now, f).world.tokens
         == SaveTokenInfo(w.tokens, r.key.chainId, TokenText(r, BorrowToken), TokenText(r, LendToken), f).tokens
  {
  }

  lemma SyncPoolCoherent(policy: Policy, w: World, key: PoolKey, fees: Fees, turn: Turn)
    requires C.Coherent(w.tokens)
    ensures C.Coherent(SyncPool(policy, w, key, fees, turn).tokens)
  {
    if turn.base.Some? {
      var info, f := turn.base.value, turn.faults;
      var b, l := TokenKey(key.chainId, info.borrowToken), TokenKey(key.chainId, info.lendToken);
      var s1 := T.Read(w.tokens, b, f.borrowRead).store;
      C.ApplyCoherent(w.tokens, T.ReadOp(b, f.borrowRead));
      C.ApplyCoherent(s1, T.ReadOp(l, f.lendRead));
      var built := BuildRecord(w, key, info, fees, f);
      var r := built.record;
      SaveTokenInfoCoherent(
        built.world.tokens, r.key.chainId, TokenText(r, BorrowToken), TokenText(r, LendToken), f.save);
      SaveTokens(built.world, r, turn.time, f.save);
      var saved := SyncBase(policy, built.world, r, turn.time, f);
      if turn.data.Some? {
        SyncDataFrame(policy, saved.world, saved.record, turn.data.value, turn.time, f);
      }
    }
  }

  lemma {:induction false} SyncPoolsCoherent(policy: Policy, w: World, chainId: string, fees: Fees, turns: seq<Turn>)
    requires C.Coherent(w.tokens)
    ensures C.Coherent(SyncPools(policy, w, chainId, fees, turns).tokens)
  {
    if turns != [] {
      var n := |turns| - 1;
      SyncPoolsCoherent(policy, w, chainId, fees, turns[..n]);
      SyncPoolCoherent(policy, SyncPools(policy, w, chainId, fees, turns[..n]), KeyOf(chainId, n), fees, turns[n]);
    }
  }

  /** Token jobs, reads and pool passes in any order, with any failure of Redis, the chain or the pool
      tables, keep every cached token field equal to its row, unless a token write meets a table error. */
  lemma {:induction false} SchedulerCoherent(policy: Policy, w: World, events: seq<Event>)
    requires C.Coherent(w.tokens)
    requires forall e :: e in events && e.TokenWork? && e.op.WriteOp? ==> C.TableWorks(e.op.f)
    ensures C.Coherent(Run(policy, w, events).tokens)
    decreases |events|
  {
    if events != [] {
      var e := events[0];
      assert e in events;
      match e {
        case Pass(chainId, fees, turns) =>
          if turns.Some? {
            SyncPoolsCoherent(policy, w, chainId, fees, turns.value);
          }
        case TokenWork(op) => C.ApplyCoherent(w.tokens, op);
      }
      SchedulerCoherent(policy, Step(policy, w, e), events[1..]);
    }
  }
  /** So they do from the flush with which the scheduler starts, whatever the tables hold. */
  lemma FlushedSchedulerCoherent(policy: Policy, w: World, events: seq<Event>)
    requires Flushed(w)
    requires forall e :: e in events && e.TokenWork? && e.op.WriteOp? ==> C.TableWorks(e.op.f)
    ensures C.Coherent(Run(policy, w, events).tokens)
  {
    C.FlushedIsCoherent(w.tokens.rows);
    SchedulerCoherent(policy, w, events);
  }
}
