/** Agreement of the token cache with its table, over every run of its writers and its reader. */
module TokenCacheTheorems {
  import opened Prelude
  import opened TokenCache

  function RowAt(s: Store, k: Key): Option<Row> {
    if k in s.rows then Some(s.rows[k]) else None
  }

  /** Every non-empty field of a cached entry is the field of the row. */
  predicate BackedBy(e: Entry, row: Row) {
    && (e.price != "" ==> row.price == e.price)
    && (e.symbol != "" ==> row.symbol == e.symbol)
    && (e.logo != "" ==> row.logo == e.logo)
  }

  ghost predicate Coherent(s: Store) {
    forall k :: k in s.redis ==> CoherentAt(s, k)
  }

  predicate CoherentAt(s: Store, k: Key)
    requires k in s.redis
  {
    k in s.rows && BackedBy(s.redis[k], s.rows[k])
  }

  /** No error of the table; Redis may fail at will. */
  predicate TableWorks(f: Faults) {
    !f.lookupFails && !f.createFails && !f.updateFails
  }

  // ----- Coherence -----

  /** The write reaches Redis. */
  predicate Reaches(s: Store, k: Key, u: Update, f: Faults) {
    !f.setFails && !(Hit(s, k, f) && Same(s.redis[k], u))
  }

  /** The row the save will update is there: it was, or the miss branch inserts it. */
  predicate RowReady(s: Store, k: Key, f: Faults) {
    k in s.rows || (!Hit(s, k, f) && !f.lookupFails && !f.createFails)
  }

  function ReadyRow(s: Store, k: Key): Row {
    if k in s.rows then s.rows[k] else EmptyRow
  }

  lemma WriteFrame(s: Store, k: Key, u: Update, f: Faults, j: Key)
    requires j != k
    ensures CellAt(Write(s, k, u, f), j) == CellAt(s, j)
  {
  }

  lemma WriteCoherentAtIff(s: Store, k: Key, u: Update, f: Faults)
    requires k in s.redis ==> CoherentAt(s, k)
    ensures var t := Write(s, k, u, f);
      (k in t.redis ==> CoherentAt(t, k)) <==>
        || !Reaches(s, k, u, f)
        || (RowReady(s, k, f) && (f.updateFails ==> BackedBy(Patch(EmptyEntry, u), ReadyRow(s, k))))
  {
    if Hit(s, k, f) {
      assert k in s.rows;
    }
  }

  /** From a coherent store, one check-and-save pair with any errors leaves a coherent one exactly when
      Redis was not written, or the row is there and was updated or already had the new values. */
  lemma WriteCoherentIff(s: Store, k: Key, u: Update, f: Faults)
    requires Coherent(s)
    ensures Coherent(Write(s, k, u, f)) <==>
      || !Reaches(s, k, u, f)
      || (RowReady(s, k, f) && (f.updateFails ==> BackedBy(Patch(EmptyEntry, u), ReadyRow(s, k))))
  {
    var t := Write(s, k, u, f);
    WriteCoherentAtIff(s, k, u, f);
    forall j | j != k && j in t.redis
      ensures CoherentAt(t, j)
    {
      WriteFrame(s, k, u, f, j);
      assert CellAt(t, j).entry == CellAt(s, j).entry && CellAt(t, j).row == CellAt(s, j).row;
    }
  }

  lemma ApplyCoherent(s: Store, op: Op)
    requires Coherent(s)
    requires op.WriteOp? ==> TableWorks(op.f)
    ensures Coherent(Apply(s, op))
  {
    match op
    case WriteOp(k, u, f) => WriteCoherentIff(s, k, u, f);
    case ReadOp(k, f) =>
    case InsertOp(k, lookupFails, createFails) =>
  }

  /** Every sequential run of the writers, the reader and row insertions keeps cache and table in
      agreement field by field, whatever Redis does, as long as no write meets an error of the table. */
  lemma {:induction false} RunCoherent(s: Store, ops: seq<Op>)
    requires Coherent(s)
    requires forall op :: op in ops && op.WriteOp? ==> TableWorks(op.f)
    ensures Coherent(ApplyAll(s, ops))
    decreases |ops|
  {
    if ops != [] {
      ApplyCoherent(s, ops[0]);
      RunCoherent(Apply(s, ops[0]), ops[1..]);
    }
  }

  lemma FlushedIsCoherent(rows: map<Key, Row>)
    ensures Coherent(Store(map[], rows))
  {
  }

  /** An operation that meets token `k` only with value `u`, through its cached entry. */
  predicate Repeats(op: Op, k: Key, u: Update) {
    match op
    case WriteOp(j, v, f) => j != k || (v == u && !f.getFails)
    case ReadOp(j, f) => j != k || !f.getFails
    case InsertOp(_, _, _) => true
  }

  /** A save that fails after Redis was written is never made up for: repeating the same value, reading,
      and anything done to other tokens leave the cache entry and the stale row as they are. */
  lemma {:induction false} FailedSaveSticks(s: Store, k: Key, u: Update, ops: seq<Op>)
    requires k in s.redis && Same(s.redis[k], u) && k in s.rows
    requires forall op :: op in ops ==> Repeats(op, k, u)
    ensures var t := ApplyAll(s, ops);
      k in t.redis && t.redis[k] == s.redis[k] && k in t.rows && t.rows[k] == s.rows[k]
    decreases |ops|
  {
    if ops != [] {
      var op := ops[0];
      assert op in ops;
      var t := Apply(s, op);
      assert k in t.redis && t.redis[k] == s.redis[k] && k in t.rows && t.rows[k] == s.rows[k];
      FailedSaveSticks(t, k, u, ops[1..]);
    }
  }

  lemma FailedSaveIsStale(s: Store, k: Key, u: Update, f: Faults)
    requires k in s.rows && Reaches(s, k, u, f) && f.updateFails
    ensures var t := Write(s, k, u, f);
      k in t.redis && Same(t.redis[k], u) && RowAt(t, k) == RowAt(s, k)
  {
  }

  // ----- One token at a time -----

  datatype Cell = Cell(entry: Option<Entry>, row: Option<Row>)

  function CellAt(s: Store, k: Key): Cell {
    Cell(if k in s.redis then Some(s.redis[k]) else None, RowAt(s, k))
  }

  /** The effect of an error-free write on its own token. */
  function WriteCell(c: Cell, u: Update): Cell {
    if c.entry.None? then
      Cell(Some(Patch(EmptyEntry, u)), Some(PatchRow(if c.row.Some? then c.row.value else EmptyRow, u)))
    else if Same(c.entry.value, u) then c
    else Cell(Some(Patch(c.entry.value, u)), if c.row.Some? then Some(PatchRow(c.row.value, u)) else None)
  }

  lemma WriteIsLocal(s: Store, k: Key, u: Update, j: Key)
    ensures CellAt(Write(s, k, u, NoFaults), j) == if j == k then WriteCell(CellAt(s, k), u) else CellAt(s, j)
  {
  }

  lemma EqualCells(s: Store, t: Store)
    requires forall k :: CellAt(s, k) == CellAt(t, k)
    ensures s == t
  {
    assert forall k :: (k in s.redis <==> CellAt(s, k).entry.Some?) && (k in t.redis <==> CellAt(t, k).entry.Some?);
    assert forall k :: (k in s.rows <==> CellAt(s, k).row.Some?) && (k in t.rows <==> CellAt(t, k).row.Some?);
    forall k | k in s.redis
      ensures t.redis[k] == s.redis[k]
    {
      assert CellAt(s, k).entry == CellAt(t, k).entry;
    }
    forall k | k in s.rows
      ensures t.rows[k] == s.rows[k]
    {
      assert CellAt(s, k).row == CellAt(t, k).row;
    }
    assert s.redis == t.redis && s.rows == t.rows;
  }

  // ----- Passes over a plan -----

  ghost predicate ErrorFree(plan: seq<Planned>) {
    forall p :: p in plan ==> p.f == NoFaults
  }

  /** Two writes planned for one token are the same write. */
  ghost predicate Agreeing(plan: seq<Planned>) {
    forall p, q :: p in plan && q in plan && p.k == q.k && p.u.Some? && q.u.Some? ==> p == q
  }

  predicate Touches(p: Planned, k: Key) {
    p.k == k && p.u.Some?
  }

  lemma {:induction false} UntouchedCell(s: Store, plan: seq<Planned>, k: Key)
    requires forall p :: p in plan ==> !Touches(p, k)
    ensures CellAt(WriteAll(s, plan), k) == CellAt(s, k)
  {
    if plan != [] {
      var front := plan[..|plan| - 1];
      UntouchedCell(s, front, k);
      assert plan[|plan| - 1] in plan;
    }
  }

  /** After the pass, a planned token shows one write of its own update, however often it was listed. */
  lemma {:induction false} TouchedCell(s: Store, plan: seq<Planned>, p: Planned)
    requires ErrorFree(plan) && Agreeing(plan)
    requires p in plan && p.u.Some?
    ensures CellAt(WriteAll(s, plan), p.k) == WriteCell(CellAt(s, p.k), p.u.value)
  {
    var front, last := plan[..|plan| - 1], plan[|plan| - 1];
    assert plan == front + [last];
    assert last in plan;
    if last.u.Some? {
      WriteIsLocal(WriteAll(s, front), last.k, last.u.value, p.k);
    }
    if p in front {
      TouchedCell(s, front, p);
    } else {
      assert forall q :: q in front ==> q in plan;
      UntouchedCell(s, front, p.k);
    }
  }

  /** A pass whose repeated tokens agree gives the same store in every order of the iteration. */
  lemma PassIsConfluent(s: Store, plan: seq<Planned>, other: seq<Planned>)
    requires ErrorFree(plan) && Agreeing(plan)
    requires forall p :: p in plan <==> p in other
    ensures WriteAll(s, plan) == WriteAll(s, other)
  {
    forall k
      ensures CellAt(WriteAll(s, plan), k) == CellAt(WriteAll(s, other), k)
    {
      if p :| p in plan && Touches(p, k) {
        TouchedCell(s, plan, p);
        TouchedCell(s, other, p);
      } else {
        UntouchedCell(s, plan, k);
        UntouchedCell(s, other, k);
      }
    }
    EqualCells(WriteAll(s, plan), WriteAll(s, other));
  }

  /** How many writes to Redis or the table a pass performs. */
  function Writes(s: Store, plan: seq<Planned>): nat {
    if plan == [] then 0
    else
      var front, last := plan[..|plan| - 1], plan[|plan| - 1];
      var before := WriteAll(s, front);
      Writes(s, front)
        + if last.u.Some? && (WriteOne(before, last) != before || Check(before, last.k, last.u.value, last.f).hasNew)
          then 1 else 0
  }

  lemma {:induction false} NothingNew(s: Store, plan: seq<Planned>)
    requires ErrorFree(plan)
    requires forall p :: p in plan && p.u.Some? ==> p.k in s.redis && Same(s.redis[p.k], p.u.value)
    ensures WriteAll(s, plan) == s && Writes(s, plan) == 0
  {
    if plan != [] {
      var front, last := plan[..|plan| - 1], plan[|plan| - 1];
      assert last in plan;
      assert forall p :: p in front ==> p in plan;
      NothingNew(s, front);
    }
  }

  /** Running the pass again at once, in any order, writes nothing at all. */
  lemma SecondPassWritesNothing(s: Store, plan: seq<Planned>, again: seq<Planned>)
    requires ErrorFree(plan) && Agreeing(plan)
    requires forall p :: p in plan <==> p in again
    ensures Writes(WriteAll(s, plan), again) == 0
    ensures WriteAll(WriteAll(s, plan), again) == WriteAll(s, plan)
  {
    var t := WriteAll(s, plan);
    forall p | p in again && p.u.Some?
      ensures p.k in t.redis && Same(t.redis[p.k], p.u.value)
    {
      TouchedCell(s, plan, p);
      assert CellAt(t, p.k).entry.Some?;
    }
    NothingNew(t, again);
  }

  lemma {:induction false} PassCoherent(s: Store, plan: seq<Planned>)
    requires Coherent(s)
    requires forall p :: p in plan ==> TableWorks(p.f)
    ensures Coherent(WriteAll(s, plan))
  {
    if plan != [] {
      var front, last := plan[..|plan| - 1], plan[|plan| - 1];
      assert last in plan;
      PassCoherent(s, front);
      if last.u.Some? {
        WriteCoherentIff(WriteAll(s, front), last.k, last.u.value, last.f);
      }
    }
  }

  /** After an error-free pass, cache and table hold the planned value of every planned token. */
  lemma PassDelivers(s: Store, plan: seq<Planned>, p: Planned)
    requires Coherent(s) && ErrorFree(plan) && Agreeing(plan)
    requires p in plan && p.u.Some?
    ensures var t := WriteAll(s, plan);
      && Coherent(t) && p.k in t.redis && Same(t.redis[p.k], p.u.value)
      && (match p.u.value
          case Price(price) => price != "" ==> p.k in t.rows && t.rows[p.k].price == price
          case Symbol(symbol) => symbol != "" ==> p.k in t.rows && t.rows[p.k].symbol == symbol
          case Logo(logo, _, _) => logo != "" ==> p.k in t.rows && t.rows[p.k].logo == logo)
  {
    var t := WriteAll(s, plan);
    PassCoherent(s, plan);
    TouchedCell(s, plan, p);
    assert CellAt(t, p.k).entry.Some?;
    assert CoherentAt(t, p.k);
  }

  /** After an error-free price job over distinct tokens, every priced token has its price in both stores. */
  lemma PriceJobDelivers(s: Store, testNet: string, tokens: seq<Listed>, i: nat)
    requires Coherent(s)
    requires forall j :: 0 <= j < |tokens| ==> tokens[j].f == NoFaults
    requires forall j, l :: 0 <= j < l < |tokens| ==> tokens[j].k != tokens[l].k
    requires i < |tokens| && tokens[i].k.token != ""
    requires tokens[i].k.chainId == testNet ==> tokens[i].reading.Some? && tokens[i].reading.value != ""
    ensures var t, k := WriteAll(s, PricePlan(testNet, tokens)), tokens[i].k;
      var price := if k.chainId == testNet then tokens[i].reading.value else "0";
      k in t.redis && k in t.rows && t.redis[k].price == price && t.rows[k].price == price
  {
    var plan := PricePlan(testNet, tokens);
    forall p, q | p in plan && q in plan && p.k == q.k && p.u.Some? && q.u.Some?
      ensures p == q
    {
      var j :| 0 <= j < |plan| && plan[j] == p;
      var l :| 0 <= l < |plan| && plan[l] == q;
    }
    PassDelivers(s, plan, plan[i]);
  }

  // ----- The logo job -----

  ghost predicate ErrorFreeTable(table: seq<LogoEntry>) {
    forall e :: e in table ==> e.f == NoFaults
  }

  /** Equal (chain, token) keys carry equal entries, as in the built-in table. */
  ghost predicate AgreeingTable(table: seq<LogoEntry>) {
    forall d, e :: d in table && e in table && d.k == e.k && e.k.token != "" ==> d == e
  }

  function PlannedLogo(e: LogoEntry): Planned {
    Planned(e.k, if e.k.token == "" then None else Some(LogoUpdate(e)), e.f)
  }

  lemma LocalPlanMembers(table: seq<LogoEntry>)
    ensures forall p :: p in LocalPlan(table) <==> exists e :: e in table && p == PlannedLogo(e)
  {
    var plan := LocalPlan(table);
    forall p | p in plan
      ensures exists e :: e in table && p == PlannedLogo(e)
    {
      var i :| 0 <= i < |plan| && plan[i] == p;
      assert table[i] in table && p == PlannedLogo(table[i]);
    }
    forall e | e in table
      ensures PlannedLogo(e) in plan
    {
      var i :| 0 <= i < |table| && table[i] == e;
      assert plan[i] == PlannedLogo(e);
    }
  }

  /** The store the local pass starts from. */
  function AfterRemote(s: Store, remote: RemoteList): Store {
    if remote.Tokens? then WriteAll(s, RemotePlan(remote.list)) else s
  }

  predicate CachedLogo(s: Store, e: LogoEntry) {
    e.k in s.redis && s.redis[e.k].logo == e.logo
  }

  predicate StoredLogo(s: Store, e: LogoEntry) {
    e.k in s.rows && s.rows[e.k].logo == e.logo
  }

  /** After the job a listed token has its local logo in Redis exactly when the remote list was missing or
      parsed, or Redis had that logo before; an unparsable list ends the job. */
  lemma LocalLogoWins(s: Store, remote: RemoteList, table: seq<LogoEntry>, e: LogoEntry)
    requires ErrorFreeTable(table) && AgreeingTable(table)
    requires e in table && e.k.token != ""
    ensures CachedLogo(LogoJob(s, remote, table), e) <==> !remote.NotJson? || CachedLogo(s, e)
  {
    if !remote.NotJson? {
      LocalPlanMembers(table);
      var before := AfterRemote(s, remote);
      TouchedCell(before, LocalPlan(table), PlannedLogo(e));
      assert CellAt(WriteAll(before, LocalPlan(table)), e.k).entry.Some?;
    }
  }

  /** The same for the table, from any store and with any errors of the remote pass: the row gets the logo when
      the token is not cached yet, else when the row is there and is written, or has the logo already. */
  lemma LocalLogoStoredIff(s: Store, remote: RemoteList, table: seq<LogoEntry>, e: LogoEntry)
    requires ErrorFreeTable(table) && AgreeingTable(table)
    requires e in table && e.k.token != ""
    ensures var before := AfterRemote(s, remote);
      StoredLogo(LogoJob(s, remote, table), e) <==>
        if remote.NotJson? then StoredLogo(s, e)
        else e.k !in before.redis || (if CachedLogo(before, e) then StoredLogo(before, e) else e.k in before.rows)
  {
    if !remote.NotJson? {
      LocalPlanMembers(table);
      var before := AfterRemote(s, remote);
      TouchedCell(before, LocalPlan(table), PlannedLogo(e));
      assert StoredLogo(LogoJob(s, remote, table), e) <==>
        CellAt(WriteAll(before, LocalPlan(table)), e.k).row.Some?
        && CellAt(WriteAll(before, LocalPlan(table)), e.k).row.value.logo == e.logo;
    }
  }

  lemma RemotePassCoherent(s: Store, list: seq<LogoEntry>)
    requires Coherent(s)
    requires forall r :: r in list ==> TableWorks(r.f)
    ensures Coherent(WriteAll(s, RemotePlan(list)))
  {
    var plan := RemotePlan(list);
    forall q | q in plan
      ensures TableWorks(q.f)
    {
      var i :| 0 <= i < |plan| && plan[i] == q;
      assert list[i] in list;
    }
    PassCoherent(s, plan);
  }

  /** Where cache and table agree and the table works, the table gets the local logo exactly when the remote
      list was missing or parsed, or the row had it before. */
  lemma LocalLogoWinsInTable(s: Store, remote: RemoteList, table: seq<LogoEntry>, e: LogoEntry)
    requires ErrorFreeTable(table) && AgreeingTable(table)
    requires e in table && e.k.token != "" && e.logo != ""
    requires Coherent(s)
    requires remote.Tokens? ==> forall r :: r in remote.list ==> TableWorks(r.f)
    ensures StoredLogo(LogoJob(s, remote, table), e) <==> !remote.NotJson? || StoredLogo(s, e)
  {
    if remote.Tokens? {
      RemotePassCoherent(s, remote.list);
    }
    var before := AfterRemote(s, remote);
    assert e.k in before.redis ==> CoherentAt(before, e.k);
    LocalLogoStoredIff(s, remote, table, e);
  }

  /** An unparsable remote list keeps an older logo of a listed token in both stores. */
  lemma UnparsableListKeepsOldLogo(e: LogoEntry)
    requires e.k.token != "" && e.logo != "old" && e.f == NoFaults
    ensures var s := Store(map[e.k := Entry("old", "", "")], map[e.k := Row("old", "", "", 0)]);
      && Coherent(s)
      && !CachedLogo(LogoJob(s, NotJson, [e]), e) && !StoredLogo(LogoJob(s, NotJson, [e]), e)
      && CachedLogo(LogoJob(s, HttpFailed, [e]), e) && StoredLogo(LogoJob(s, HttpFailed, [e]), e)
  {
    var s := Store(map[e.k := Entry("old", "", "")], map[e.k := Row("old", "", "", 0)]);
    LocalLogoWins(s, HttpFailed, [e], e);
    LocalLogoStoredIff(s, HttpFailed, [e], e);
  }

  ghost predicate OrderFreeTable(table: seq<LogoEntry>) {
    forall s, other :: multiset(other) == multiset(table) ==>
      WriteAll(s, LocalPlan(other)) == WriteAll(s, LocalPlan(table))
  }

  lemma SameEntries(table: seq<LogoEntry>, other: seq<LogoEntry>)
    requires multiset(other) == multiset(table)
    ensures forall e :: e in table <==> e in other
  {
    forall e
      ensures e in table <==> e in other
    {
      assert e in table <==> e in multiset(table);
      assert e in other <==> e in multiset(other);
    }
  }

  lemma MovedLast<X>(s: seq<X>, i: nat) returns (other: seq<X>)
    requires i < |s|
    ensures multiset(other) == multiset(s) && other != [] && other[|other| - 1] == s[i]
  {
    other := s[..i] + s[i + 1..] + [s[i]];
    assert s == s[..i] + [s[i]] + s[i + 1..];
  }

  /** With an entry moved to the end, its logo is the one that stays. */
  lemma LastLogoStays(s: Store, table: seq<LogoEntry>, e: LogoEntry) returns (other: seq<LogoEntry>)
    requires ErrorFreeTable(table) && e in table && e.k.token != ""
    ensures multiset(other) == multiset(table)
    ensures CellAt(WriteAll(s, LocalPlan(other)), e.k).entry.Some?
    ensures CellAt(WriteAll(s, LocalPlan(other)), e.k).entry.value.logo == e.logo
  {
    var i :| 0 <= i < |table| && table[i] == e;
    other := MovedLast(table, i);
    var plan := LocalPlan(other);
    WriteIsLocal(WriteAll(s, plan[..|plan| - 1]), e.k, LogoUpdate(e), e.k);
  }

  /** When all logos of a token are equal, the first of its entries decides symbol and decimals. */
  lemma {:induction false} FirstEntryStays(s: Store, e: LogoEntry, rest: seq<LogoEntry>)
    requires e.f == NoFaults && ErrorFreeTable(rest) && e.k.token != ""
    requires forall d :: d in rest && d.k == e.k ==> d.logo == e.logo
    requires CellAt(s, e.k) == Cell(None, None)
    ensures CellAt(WriteAll(s, LocalPlan([e] + rest)), e.k)
         == Cell(Some(Entry(e.logo, e.symbol, "")), Some(Row(e.logo, e.symbol, "", e.decimals)))
  {
    var plan := LocalPlan([e] + rest);
    if rest == [] {
      assert plan == [PlannedLogo(e)];
      assert WriteAll(s, plan[..0]) == s;
      WriteIsLocal(s, e.k, LogoUpdate(e), e.k);
    } else {
      var front, last := rest[..|rest| - 1], rest[|rest| - 1];
      assert last in rest;
      FirstEntryStays(s, e, front);
      assert plan[..|plan| - 1] == LocalPlan([e] + front);
      assert plan[|plan| - 1] == PlannedLogo(last);
      if last.k.token != "" {
        WriteIsLocal(WriteAll(s, LocalPlan([e] + front)), last.k, LogoUpdate(last), e.k);
      }
    }
  }

  lemma MoveFirst(table: seq<LogoEntry>, e: LogoEntry) returns (rest: seq<LogoEntry>)
    requires e in table
    ensures multiset([e] + rest) == multiset(table)
  {
    var i :| 0 <= i < |table| && table[i] == e;
    assert table == table[..i] + [e] + table[i + 1..];
    rest := table[..i] + table[i + 1..];
  }

  lemma ReorderedTable(s: Store, table: seq<LogoEntry>, other: seq<LogoEntry>)
    requires OrderFreeTable(table) && multiset(other) == multiset(table)
    ensures WriteAll(s, LocalPlan(other)) == WriteAll(s, LocalPlan(table))
  {
  }

  lemma TwoLogosMatter(table: seq<LogoEntry>, d: LogoEntry, e: LogoEntry)
    requires ErrorFreeTable(table) && OrderFreeTable(table)
    requires d in table && e in table && d.k == e.k && e.k.token != ""
    ensures d.logo == e.logo
  {
    var empty := Store(map[], map[]);
    var dLast := LastLogoStays(empty, table, d);
    var eLast := LastLogoStays(empty, table, e);
    ReorderedTable(empty, table, dLast);
    ReorderedTable(empty, table, eLast);
  }

  lemma TwoEntriesMatter(table: seq<LogoEntry>, d: LogoEntry, e: LogoEntry)
    requires ErrorFreeTable(table) && OrderFreeTable(table)
    requires d in table && e in table && d.k == e.k && e.k.token != ""
    ensures d == e
  {
    forall c | c in table && c.k == e.k
      ensures c.logo == d.logo == e.logo
    {
      TwoLogosMatter(table, c, d);
      TwoLogosMatter(table, d, e);
    }
    var empty := Store(map[], map[]);
    var dRest := MoveFirst(table, d);
    var eRest := MoveFirst(table, e);
    SameEntries(table, [d] + dRest);
    SameEntries(table, [e] + eRest);
    assert forall x :: x in dRest ==> x in [d] + dRest;
    assert forall x :: x in eRest ==> x in [e] + eRest;
    FirstEntryStays(empty, d, dRest);
    FirstEntryStays(empty, e, eRest);
    ReorderedTable(empty, table, [d] + dRest);
    ReorderedTable(empty, table, [e] + eRest);
  }

  /** The order of the built-in table is irrelevant for every store exactly when its repeated tokens agree. */
  lemma LocalTableConfluentIff(table: seq<LogoEntry>)
    requires ErrorFreeTable(table)
    ensures OrderFreeTable(table) <==> AgreeingTable(table)
  {
    if AgreeingTable(table) {
      forall s, other | multiset(other) == multiset(table)
        ensures WriteAll(s, LocalPlan(other)) == WriteAll(s, LocalPlan(table))
      {
        SameEntries(table, other);
        LocalPlanMembers(table);
        LocalPlanMembers(other);
        PassIsConfluent(s, LocalPlan(table), LocalPlan(other));
      }
    }
    if OrderFreeTable(table) {
      forall d, e | d in table && e in table && d.k == e.k && e.k.token != ""
        ensures d == e
      {
        TwoEntriesMatter(table, d, e);
      }
    }
  }
}
