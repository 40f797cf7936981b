/**
 What single cache operations and whole jobs do to each field of a token, in Redis and in the table, told by
 the stored values alone.
 */
module TokenCacheEffects {
  import opened Prelude
  import opened TokenCache
  import opened TokenCacheTheorems

  /** Every token but `k` is as before. */
  ghost predicate OthersKept(s: Store, t: Store, k: Key) {
    && (forall j :: j != k ==> (j in t.redis <==> j in s.redis) && (j in t.rows <==> j in s.rows))
    && (forall j :: j != k && j in s.redis ==> t.redis[j] == s.redis[j])
    && (forall j :: j != k && j in s.rows ==> t.rows[j] == s.rows[j])
  }

  /** The cached entry has the three fields of the row. */
  predicate Copies(e: Entry, r: Row) {
    e.logo == r.logo && e.symbol == r.symbol && e.price == r.price
  }

  // ----- The reader -----

  /** A cached token is answered from Redis and nothing is written. */
  lemma ReadFromCache(s: Store, k: Key, f: Faults)
    requires k in s.redis && !f.getFails
    ensures var v := Read(s, k, f);
      v.store == s && !v.failed && v.entry == s.redis[k]
  {
  }

  /** A token Redis does not answer is answered with the logo, symbol and price of its row, and Redis takes
      those three values if it can. */
  lemma ReadThrough(s: Store, k: Key, f: Faults)
    requires k !in s.redis || f.getFails
    requires !f.lookupFails && k in s.rows
    ensures var v := Read(s, k, f);
      && !v.failed && Copies(v.entry, s.rows[k])
      && v.store.rows == s.rows && OthersKept(s, v.store, k)
      && (f.setFails ==> v.store.redis == s.redis)
      && (!f.setFails ==> k in v.store.redis && Copies(v.store.redis[k], s.rows[k]))
  {
  }

  /** Without a row, or with a failing lookup, the answer is blank and Redis is left alone. */
  lemma ReadFindsNothing(s: Store, k: Key, f: Faults)
    requires k !in s.redis || f.getFails
    requires f.lookupFails || k !in s.rows
    ensures var v := Read(s, k, f);
      v.store == s && v.failed == f.lookupFails && v.entry.logo == "" && v.entry.symbol == "" && v.entry.price == ""
  {
  }

  /** Work on other tokens, and reading, do not disturb what the reader cached: the next read returns the
      values the row had when it was first read. */
  lemma ReadAgain(s: Store, k: Key, f: Faults, ops: seq<Op>, g: Faults)
    requires (k !in s.redis || f.getFails) && !f.lookupFails && k in s.rows && !f.setFails && !g.getFails
    requires forall op :: op in ops ==> (op.WriteOp? ==> op.k != k) && (op.ReadOp? ==> op.k != k || !op.f.getFails)
    ensures var v := Read(ApplyAll(Read(s, k, f).store, ops), k, g);
      !v.failed && Copies(v.entry, s.rows[k])
  {
    ReadThrough(s, k, f);
    CachedEntryStays(Read(s, k, f).store, k, ops);
  }

  lemma {:induction false} CachedEntryStays(s: Store, k: Key, ops: seq<Op>)
    requires k in s.redis
    requires forall op :: op in ops ==> (op.WriteOp? ==> op.k != k) && (op.ReadOp? ==> op.k != k || !op.f.getFails)
    ensures var t := ApplyAll(s, ops); k in t.redis && t.redis[k] == s.redis[k]
    decreases |ops|
  {
    if ops != [] {
      assert ops[0] in ops;
      CachedEntryStays(Apply(s, ops[0]), k, ops[1..]);
    }
  }

  // ----- The writers -----

  /** Redis does not answer, and the table lets a missing row be inserted. */
  predicate Inserts(s: Store, k: Key, f: Faults) {
    (k !in s.redis || f.getFails) && k !in s.rows && !f.lookupFails && !f.createFails
  }

  /** Inserting a row adds a blank one, only where there was none, and does not touch Redis. */
  lemma InsertExactly(s: Store, k: Key, lookupFails: bool, createFails: bool)
    ensures var t := EnsureRow(s, k, lookupFails, createFails);
      && t.redis == s.redis
      && t.rows == if k in s.rows || lookupFails || createFails then s.rows else s.rows[k := Row("", "", "", 0)]
  {
  }

  /** What a check reports: an error exactly if Redis refused the value, and a new value if Redis does not have it,
      where a refused one counts for a cached token only. */
  lemma CheckReports(s: Store, k: Key, u: Update, f: Faults)
    ensures var c := Check(s, k, u, f); var known := k in s.redis && !f.getFails;
      var has := known && match u
        case Price(price) => s.redis[k].price == price
        case Symbol(symbol) => s.redis[k].symbol == symbol
        case Logo(logo, _, _) => s.redis[k].logo == logo;
      && (c.failed <==> !has && f.setFails)
      && (c.hasNew <==> !has && (known || !f.setFails))
  {
  }

  /** A price write leaves the logo and the symbol of the entry and of the row, and the decimals of the row; it
      writes Redis before the table, neither if Redis has the price. */
  lemma PriceWriteExactly(s: Store, k: Key, price: string, f: Faults)
    ensures var t := Write(s, k, Price(price), f);
      var known := k in s.redis && !f.getFails;
      var old_ := if known then s.redis[k] else Entry("", "", "");
      var row := if k in s.rows then s.rows[k] else Row("", "", "", 0);
      var skips := (known && s.redis[k].price == price) || f.setFails;
      && OthersKept(s, t, k)
      && t.redis == (if skips then s.redis else s.redis[k := Entry(old_.logo, old_.symbol, price)])
      && (k in t.rows <==> k in s.rows || Inserts(s, k, f))
      && (k in t.rows ==>
            t.rows[k] == if skips || f.updateFails then row else Row(row.logo, row.symbol, price, row.decimals))
  {
  }

  /** A symbol write, likewise, changes the symbol alone. */
  lemma SymbolWriteExactly(s: Store, k: Key, symbol: string, f: Faults)
    ensures var t := Write(s, k, Symbol(symbol), f);
      var known := k in s.redis && !f.getFails;
      var old_ := if known then s.redis[k] else Entry("", "", "");
      var row := if k in s.rows then s.rows[k] else Row("", "", "", 0);
      var skips := (known && s.redis[k].symbol == symbol) || f.setFails;
      && OthersKept(s, t, k)
      && t.redis == (if skips then s.redis else s.redis[k := Entry(old_.logo, symbol, old_.price)])
      && (k in t.rows <==> k in s.rows || Inserts(s, k, f))
      && (k in t.rows ==>
            t.rows[k] == if skips || f.updateFails then row else Row(row.logo, symbol, row.price, row.decimals))
  {
  }

  /** A logo write is decided by the logo alone; it brings logo and symbol, and decimals for the row, and leaves
      the price. */
  lemma LogoWriteExactly(s: Store, k: Key, logo: string, symbol: string, decimals: int, f: Faults)
    ensures var t := Write(s, k, Logo(logo, symbol, decimals), f);
      var known := k in s.redis && !f.getFails;
      var price := if known then s.redis[k].price else "";
      var row := if k in s.rows then s.rows[k] else Row("", "", "", 0);
      var skips := (known && s.redis[k].logo == logo) || f.setFails;
      && OthersKept(s, t, k)
      && t.redis == (if skips then s.redis else s.redis[k := Entry(logo, symbol, price)])
      && (k in t.rows <==> k in s.rows || Inserts(s, k, f))
      && (k in t.rows ==> t.rows[k] == if skips || f.updateFails then row else Row(logo, symbol, row.price, decimals))
  {
  }

  /** The price write of a cached token keeps its cached logo and symbol exactly when Redis answers, or does not
      take the write, or there is nothing to lose: a failing read counts as an uncached token. */
  lemma CachedLogoKeptIff(s: Store, k: Key, price: string, f: Faults)
    requires k in s.redis
    ensures var t := Write(s, k, Price(price), f);
      && k in t.redis
      && (t.redis[k].logo == s.redis[k].logo && t.redis[k].symbol == s.redis[k].symbol <==>
            !f.getFails || f.setFails || (s.redis[k].logo == "" && s.redis[k].symbol == ""))
  {
    PriceWriteExactly(s, k, price, f);
  }

  /** A failing read during a price write costs a cached token its logo. */
  lemma FailedGetLosesLogo(k: Key, row: Row)
    ensures var s := Store(map[k := Entry("logo", "symbol", "1")], map[k := row]);
      var t := Write(s, k, Price("2"), NoFaults.(getFails := true));
      k in t.redis && t.redis[k].logo == "" && t.redis[k].price == "2"
  {
    var s := Store(map[k := Entry("logo", "symbol", "1")], map[k := row]);
    PriceWriteExactly(s, k, "2", NoFaults.(getFails := true));
  }

  // ----- Which fields of a row a run can change -----

  predicate WritesOf(op: Op, k: Key) {
    op.WriteOp? && op.k == k
  }

  lemma StepKeepsRowFields(s: Store, op: Op, k: Key)
    requires k in s.rows
    ensures var t := Apply(s, op);
      && k in t.rows
      && (!(WritesOf(op, k) && op.u.Price?) ==> t.rows[k].price == s.rows[k].price)
      && (!(WritesOf(op, k) && op.u.Logo?) ==>
            t.rows[k].logo == s.rows[k].logo && t.rows[k].decimals == s.rows[k].decimals)
      && (!(WritesOf(op, k) && !op.u.Price?) ==> t.rows[k].symbol == s.rows[k].symbol)
  {
  }

  /** Over any run with any errors, no row is lost; its price changes only by price writes for that token, its
      logo and decimals only by logo writes, and its symbol only by symbol and logo writes. */
  lemma {:induction false} RunKeepsRowFields(s: Store, ops: seq<Op>, k: Key)
    requires k in s.rows
    ensures var t := ApplyAll(s, ops);
      && k in t.rows
      && ((forall op :: op in ops ==> !(WritesOf(op, k) && op.u.Price?)) ==> t.rows[k].price == s.rows[k].price)
      && ((forall op :: op in ops ==> !(WritesOf(op, k) && op.u.Logo?)) ==>
            t.rows[k].logo == s.rows[k].logo && t.rows[k].decimals == s.rows[k].decimals)
      && ((forall op :: op in ops ==> !(WritesOf(op, k) && !op.u.Price?)) ==> t.rows[k].symbol == s.rows[k].symbol)
    decreases |ops|
  {
    if ops != [] {
      StepKeepsRowFields(s, ops[0], k);
      RunKeepsRowFields(Apply(s, ops[0]), ops[1..], k);
      assert ops[0] in ops;
      assert forall op :: op in ops[1..] ==> op in ops;
    }
  }

  // ----- The jobs -----

  ghost predicate DistinctTokens(tokens: seq<Listed>) {
    forall i, j :: 0 <= i < j < |tokens| ==> tokens[i].k != tokens[j].k
  }

  /** A token the job leaves out keeps its cached entry and its row. */
  lemma SkippedToken(s: Store, plan: seq<Planned>, i: nat)
    requires i < |plan| && plan[i].u.None?
    requires forall j :: 0 <= j < |plan| && j != i ==> plan[j].k != plan[i].k
    ensures CellAt(WriteAll(s, plan), plan[i].k) == CellAt(s, plan[i].k)
  {
    forall p | p in plan
      ensures !Touches(p, plan[i].k)
    {
      var j :| 0 <= j < |plan| && plan[j] == p;
    }
    UntouchedCell(s, plan, plan[i].k);
  }

  /** The price job passes over an empty token, and over a test-net token whose price cannot be read. */
  lemma PriceJobSkips(s: Store, testNet: string, tokens: seq<Listed>, i: nat)
    requires i < |tokens| && DistinctTokens(tokens)
    requires tokens[i].k.token == "" || (tokens[i].k.chainId == testNet && tokens[i].reading.None?)
    ensures var t, k := WriteAll(s, PricePlan(testNet, tokens)), tokens[i].k;
      && (k in t.redis <==> k in s.redis) && (k in s.redis ==> t.redis[k] == s.redis[k])
      && (k in t.rows <==> k in s.rows) && (k in s.rows ==> t.rows[k] == s.rows[k])
  {
    SkippedToken(s, PricePlan(testNet, tokens), i);
    CellsAgree(s, WriteAll(s, PricePlan(testNet, tokens)), tokens[i].k);
  }

  lemma CellsAgree(s: Store, t: Store, k: Key)
    requires CellAt(t, k) == CellAt(s, k)
    ensures (k in t.redis <==> k in s.redis) && (k in s.redis ==> t.redis[k] == s.redis[k])
    ensures (k in t.rows <==> k in s.rows) && (k in s.rows ==> t.rows[k] == s.rows[k])
  {
    var was, is_ := CellAt(s, k), CellAt(t, k);
    assert was.entry == is_.entry && was.row == is_.row;
  }

  /** The symbol job passes over empty tokens, tokens of other chains, and tokens whose symbol cannot be read. */
  lemma SymbolJobSkips(s: Store, testNet: string, mainNet: string, tokens: seq<Listed>, i: nat)
    requires i < |tokens| && DistinctTokens(tokens)
    requires tokens[i].k.token == "" || tokens[i].k.chainId !in {testNet, mainNet} || tokens[i].reading.None?
    ensures var t, k := WriteAll(s, SymbolPlan(testNet, mainNet, tokens)), tokens[i].k;
      && (k in t.redis <==> k in s.redis) && (k in s.redis ==> t.redis[k] == s.redis[k])
      && (k in t.rows <==> k in s.rows) && (k in s.rows ==> t.rows[k] == s.rows[k])
  {
    SkippedToken(s, SymbolPlan(testNet, mainNet, tokens), i);
    CellsAgree(s, WriteAll(s, SymbolPlan(testNet, mainNet, tokens)), tokens[i].k);
  }

  /** After an error-free symbol job over distinct tokens, every token of the two chains whose symbol was read
      has it in both stores. */
  lemma SymbolJobDelivers(s: Store, testNet: string, mainNet: string, tokens: seq<Listed>, i: nat)
    requires Coherent(s) && DistinctTokens(tokens)
    requires forall j :: 0 <= j < |tokens| ==> tokens[j].f == NoFaults
    requires i < |tokens| && tokens[i].k.token != "" && tokens[i].k.chainId in {testNet, mainNet}
    requires tokens[i].reading.Some? && tokens[i].reading.value != ""
    ensures var t, k := WriteAll(s, SymbolPlan(testNet, mainNet, tokens)), tokens[i].k;
      && k in t.redis && t.redis[k].symbol == tokens[i].reading.value
      && k in t.rows && t.rows[k].symbol == tokens[i].reading.value
  {
    var plan := SymbolPlan(testNet, mainNet, tokens);
    forall p, q | p in plan && q in plan && p.k == q.k && p.u.Some? && q.u.Some?
      ensures p == q
    {
      var j :| 0 <= j < |plan| && plan[j] == p;
      var l :| 0 <= l < |plan| && plan[l] == q;
    }
    PassDelivers(s, plan, plan[i]);
  }

  // ----- The logo job -----

  /** The token shows one logo write of entry `e`: what it had if its cached logo was that of `e`, else the logo
      and symbol of `e` in Redis and, with the decimals, in the row; the price stays. */
  ghost predicate ShowsLogoWrite(s: Store, t: Store, e: LogoEntry) {
    if e.k in s.redis && s.redis[e.k].logo == e.logo then
      && e.k in t.redis && t.redis[e.k] == s.redis[e.k]
      && (e.k in t.rows <==> e.k in s.rows) && (e.k in s.rows ==> t.rows[e.k] == s.rows[e.k])
    else
      && e.k in t.redis
      && t.redis[e.k] == Entry(e.logo, e.symbol, if e.k in s.redis then s.redis[e.k].price else "")
      && (e.k in t.rows <==> e.k in s.rows || e.k !in s.redis)
      && (e.k in t.rows ==>
            t.rows[e.k] == Row(e.logo, e.symbol, if e.k in s.rows then s.rows[e.k].price else "", e.decimals))
  }

  lemma LogoCell(s: Store, plan: seq<Planned>, e: LogoEntry)
    requires ErrorFree(plan) && Agreeing(plan) && e.f == NoFaults
    requires Planned(e.k, Some(LogoUpdate(e)), e.f) in plan
    ensures ShowsLogoWrite(s, WriteAll(s, plan), e)
  {
    var t := WriteAll(s, plan);
    TouchedCell(s, plan, Planned(e.k, Some(LogoUpdate(e)), e.f));
    var before, after := CellAt(s, e.k), CellAt(t, e.k);
    assert after == WriteCell(before, Logo(e.logo, e.symbol, e.decimals));
    assert (e.k in t.redis <==> after.entry.Some?) && (e.k in t.redis ==> t.redis[e.k] == after.entry.value);
    assert (e.k in t.rows <==> after.row.Some?) && (e.k in t.rows ==> t.rows[e.k] == after.row.value);
  }

  lemma LocalPlanAgrees(table: seq<LogoEntry>)
    requires ErrorFreeTable(table) && AgreeingTable(table)
    ensures ErrorFree(LocalPlan(table)) && Agreeing(LocalPlan(table))
  {
    LocalPlanMembers(table);
  }

  /** The local pass gives each listed token its own logo, symbol and decimals. */
  lemma LocalLogoExactly(s: Store, table: seq<LogoEntry>, e: LogoEntry)
    requires ErrorFreeTable(table) && AgreeingTable(table)
    requires e in table && e.k.token != ""
    ensures ShowsLogoWrite(s, LogoJob(s, HttpFailed, table), e)
  {
    LocalPlanAgrees(table);
    LocalPlanMembers(table);
    assert PlannedLogo(e) in LocalPlan(table);
    LogoCell(s, LocalPlan(table), e);
  }

  lemma RemotePlanMembers(list: seq<LogoEntry>)
    ensures forall p :: p in RemotePlan(list) <==> exists e :: e in list && p == Planned(e.k, Some(LogoUpdate(e)), e.f)
  {
    var plan := RemotePlan(list);
    forall p | p in plan
      ensures exists e :: e in list && p == Planned(e.k, Some(LogoUpdate(e)), e.f)
    {
      var i :| 0 <= i < |plan| && plan[i] == p;
      assert list[i] in list;
    }
    forall e | e in list
      ensures Planned(e.k, Some(LogoUpdate(e)), e.f) in plan
    {
      var i :| 0 <= i < |list| && list[i] == e;
      assert plan[i] == Planned(e.k, Some(LogoUpdate(e)), e.f);
    }
  }

  /** A token of the remote list that the local table does not name gets the logo, symbol and decimals of the
      remote entry. */
  lemma RemoteLogoExactly(s: Store, list: seq<LogoEntry>, table: seq<LogoEntry>, e: LogoEntry)
    requires e in list && (forall d :: d in list ==> d.f == NoFaults)
    requires forall c, d :: c in list && d in list && c.k == d.k ==> c == d
    requires forall d :: d in table ==> d.k != e.k
    ensures ShowsLogoWrite(s, LogoJob(s, Tokens(list), table), e)
  {
    RemotePlanMembers(list);
    var plan := RemotePlan(list);
    assert Planned(e.k, Some(LogoUpdate(e)), e.f) in plan;
    LogoCell(s, plan, e);
    var middle := WriteAll(s, plan);
    LocalPlanMembers(table);
    UntouchedCell(middle, LocalPlan(table), e.k);
    CellsAgree(middle, WriteAll(middle, LocalPlan(table)), e.k);
  }

  /** A list that does not parse leaves both stores as they are; so does an entry without a token address. */
  lemma LogoJobSkips(s: Store, table: seq<LogoEntry>, k: Key)
    requires k.token == ""
    ensures LogoJob(s, NotJson, table) == s
    ensures var t := LogoJob(s, HttpFailed, table);
      && (k in t.redis <==> k in s.redis) && (k in s.redis ==> t.redis[k] == s.redis[k])
      && (k in t.rows <==> k in s.rows) && (k in s.rows ==> t.rows[k] == s.rows[k])
  {
    LocalPlanMembers(table);
    UntouchedCell(s, LocalPlan(table), k);
    CellsAgree(s, WriteAll(s, LocalPlan(table)), k);
  }

  // ----- Full copies -----

  /** Every cached entry has all three fields of its row, blank ones included. */
  ghost predicate Exact(s: Store) {
    forall k :: k in s.redis ==> k in s.rows && Copies(s.redis[k], s.rows[k])
  }

  /** Reads and insertions keep full copies, and leave the rows there were. */
  lemma ReadsStayExact(s: Store, op: Op)
    requires Exact(s) && !op.WriteOp?
    ensures Exact(Apply(s, op))
    ensures forall k :: k in s.rows ==> k in Apply(s, op).rows && Apply(s, op).rows[k] == s.rows[k]
  {
  }
}
