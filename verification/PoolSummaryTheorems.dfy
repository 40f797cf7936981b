/** The token summaries of the pool rows, traced back to the token table they are read from. */
module PoolSummaryTheorems {
  import opened Prelude
  import opened PoolSync
  import opened PoolSyncTheorems
  import opened PoolRowTheorems
  import T = TokenCache
  import E = TokenCacheEffects

  /** The column holds the fee and the logo, symbol and price of the token row. */
  predicate Summarises(row: map<Column, Value>, c: Column, fee: string, token: T.Row) {
    c in row && row[c] == TokenJson(fee, token.logo, token.symbol, token.price)
  }

  function BorrowKey(chainId: string, info: BaseInfo): T.Key {
    T.Key(chainId, info.borrowToken)
  }

  function LendKey(chainId: string, info: BaseInfo): T.Key {
    T.Key(chainId, info.lendToken)
  }

  // ----- One turn -----

  /** Redis does not answer for the token, and the table does. */
  predicate Missed(s: T.Store, k: T.Key, f: T.Faults) {
    (k !in s.redis || f.getFails) && !f.lookupFails && k in s.rows
  }

  /** A token that Redis does not have is summarised by its row, each side by its own. */
  lemma TurnShowsTokenRows(md5: PoolBase -> string, w: World, key: PoolKey, fees: Fees, turn: Turn)
    requires MirroredAt(md5, w, key) && SavesWork(turn) && turn.base.Some?
    requires Missed(w.tokens, BorrowKey(key.chainId, turn.base.value), turn.faults.borrowRead)
    requires Missed(w.tokens, LendKey(key.chainId, turn.base.value), turn.faults.lendRead)
    ensures var pools := SyncPool(ByFingerprint(md5), w, key, fees, turn).poolbases; var rows := w.tokens.rows;
      && key in pools
      && Summarises(pools[key], BorrowTokenInfo, fees.borrowFee, rows[BorrowKey(key.chainId, turn.base.value)])
      && Summarises(pools[key], LendTokenInfo, fees.lendFee, rows[LendKey(key.chainId, turn.base.value)])
  {
    var b, l := BorrowKey(key.chainId, turn.base.value), LendKey(key.chainId, turn.base.value);
    var borrow := T.Read(w.tokens, b, turn.faults.borrowRead);
    E.ReadThrough(w.tokens, b, turn.faults.borrowRead);
    if l in borrow.store.redis && !turn.faults.lendRead.getFails {
      E.ReadFromCache(borrow.store, l, turn.faults.lendRead);
    } else {
      E.ReadThrough(borrow.store, l, turn.faults.lendRead);
    }
    TurnShowsTokenInfo(md5, w, key, fees, turn);
  }

  // ----- A pass -----

  lemma SaveTokenInfoExact(s: T.Store, chainId: string, borrow: string, lend: string, f: SaveFaults)
    requires E.Exact(s)
    ensures var t := SaveTokenInfo(s, chainId, borrow, lend, f).tokens; E.Exact(t) && RowsKept(s, t)
  {
    var b, l := TokenKey(chainId, borrow), TokenKey(chainId, lend);
    var s1 := T.EnsureRow(s, b, f.borrowLookup, f.borrowCreate);
    E.ReadsStayExact(s, T.InsertOp(b, f.borrowLookup, f.borrowCreate));
    E.ReadsStayExact(s1, T.InsertOp(l, f.lendLookup, f.lendCreate));
  }

  ghost predicate RowsKept(s: T.Store, t: T.Store) {
    forall k :: k in s.rows ==> k in t.rows && t.rows[k] == s.rows[k]
  }

  lemma SaveTokens(w: World, r: PoolBase, now: int, f: SaveFaults)
    ensures SavePoolBase(w, r, now, f).world.tokens
         == SaveTokenInfo(w.tokens, r.key.chainId, TokenText(r, BorrowToken), TokenText(r, LendToken), f).tokens
  {
  }

  /** A turn reads and inserts only, so full copies stay full copies. */
  lemma TurnStaysExact(policy: Policy, w: World, key: PoolKey, fees: Fees, turn: Turn)
    requires E.Exact(w.tokens)
    ensures var t := SyncPool(policy, w, key, fees, turn); E.Exact(t.tokens) && RowsKept(w.tokens, t.tokens)
  {
    if turn.base.Some? {
      var info, f := turn.base.value, turn.faults;
      var b, l := BorrowKey(key.chainId, info), LendKey(key.chainId, info);
      var s1 := T.Read(w.tokens, b, f.borrowRead).store;
      E.ReadsStayExact(w.tokens, T.ReadOp(b, f.borrowRead));
      E.ReadsStayExact(s1, T.ReadOp(l, f.lendRead));
      var built := BuildRecord(w, key, info, fees, f);
      var r := built.record;
      SaveTokenInfoExact(
        built.world.tokens, r.key.chainId, TokenText(r, BorrowToken), TokenText(r, LendToken), f.save);
      SaveTokens(built.world, r, turn.time, f.save);
      var saved := SyncBase(policy, built.world, r, turn.time, f);
      if turn.data.Some? {
        SyncDataFrame(policy, saved.world, saved.record, turn.data.value, turn.time, f);
      }
    }
  }

  lemma {:induction false} PassStaysExact(policy: Policy, w: World, chainId: string, fees: Fees, turns: seq<Turn>)
    requires E.Exact(w.tokens)
    ensures var t := SyncPools(policy, w, chainId, fees, turns); E.Exact(t.tokens) && RowsKept(w.tokens, t.tokens)
  {
    if turns != [] {
      var n := |turns| - 1;
      PassStaysExact(policy, w, chainId, fees, turns[..n]);
      TurnStaysExact(policy, SyncPools(policy, w, chainId, fees, turns[..n]), KeyOf(chainId, n), fees, turns[n]);
    }
  }

  lemma ReadIsRow(s: T.Store, k: T.Key, f: T.Faults)
    requires E.Exact(s) && k in s.rows && !f.lookupFails
    ensures var v := T.Read(s, k, f); E.Copies(v.entry, s.rows[k]) && E.Exact(v.store) && v.store.rows == s.rows
  {
    E.ReadsStayExact(s, T.ReadOp(k, f));
  }

  /** Both tokens of the turn have rows, and their lookups work. */
  predicate TokensKnown(s: T.Store, chainId: string, turn: Turn)
    requires turn.base.Some?
  {
    && BorrowKey(chainId, turn.base.value) in s.rows && !turn.faults.borrowRead.lookupFails
    && LendKey(chainId, turn.base.value) in s.rows && !turn.faults.lendRead.lookupFails
  }

  /** In a pass that starts with a cache of full copies, such as a flushed one, a pool whose tokens are in the
      table ends with summaries of their rows, whatever Redis does. */
  lemma PassShowsTokenRows(
    md5: PoolBase -> string, w: World, chainId: string, fees: Fees, turns: seq<Turn>, i: nat)
    requires E.Exact(w.tokens) && MirroredAt(md5, w, KeyOf(chainId, i))
    requires i < |turns| && SavesWork(turns[i]) && turns[i].base.Some? && TokensKnown(w.tokens, chainId, turns[i])
    ensures var pools, key := SyncPools(ByFingerprint(md5), w, chainId, fees, turns).poolbases, KeyOf(chainId, i);
      var info, rows := turns[i].base.value, w.tokens.rows;
      && key in pools
      && Summarises(pools[key], BorrowTokenInfo, fees.borrowFee, rows[BorrowKey(chainId, info)])
      && Summarises(pools[key], LendTokenInfo, fees.lendFee, rows[LendKey(chainId, info)])
  {
    var policy, key, turn := ByFingerprint(md5), KeyOf(chainId, i), turns[i];
    var before := SyncPools(policy, w, chainId, fees, turns[..i]);
    PassStaysExact(policy, w, chainId, fees, turns[..i]);
    OneTurnPerPool(policy, w, chainId, fees, turns, i);
    UntouchedMirrored(md5, w, before, key);
    var b, l := BorrowKey(chainId, turn.base.value), LendKey(chainId, turn.base.value);
    ReadIsRow(before.tokens, b, turn.faults.borrowRead);
    ReadIsRow(T.Read(before.tokens, b, turn.faults.borrowRead).store, l, turn.faults.lendRead);
    TurnShowsTokenInfo(md5, before, key, fees, turn);
  }
}
