/**
 The per-token cache of the scheduler: one Redis entry per (chain, token), written by the price,
 symbol and logo jobs and filled by a read-through reader, in front of the table `token_info`
 (pledge-backend/schedule/services/token*Service.go, schedule/models/tokenInfo.go).
 */
module TokenCache {
  import opened Prelude

  datatype Key = Key(chainId: string, token: string)

  datatype Entry = Entry(logo: string, symbol: string, price: string)

  datatype Row = Row(logo: string, symbol: string, price: string, decimals: int)

  datatype Store = Store(redis: map<Key, Entry>, rows: map<Key, Row>)

  /** Which of the store operations of one call report an error. */
  datatype Faults = Faults(getFails: bool, lookupFails: bool, createFails: bool, setFails: bool, updateFails: bool)

  const NoFaults := Faults(false, false, false, false, false)

  /** What a writer brings: the arguments of CheckXData and SaveXData. */
  datatype Update =
    | Price(price: string)
    | Symbol(symbol: string)
    | Logo(logo: string, symbol: string, decimals: int)

  const EmptyEntry := Entry("", "", "")
  const EmptyRow := Row("", "", "", 0)

  // ----- The three writers -----

  /** The logo writer compares the logo alone, not the symbol it also brings. */
  predicate Same(e: Entry, u: Update) {
    match u
    case Price(price) => e.price == price
    case Symbol(symbol) => e.symbol == symbol
    case Logo(logo, _, _) => e.logo == logo
  }

  function Patch(e: Entry, u: Update): Entry {
    match u
    case Price(price) => e.(price := price)
    case Symbol(symbol) => e.(symbol := symbol)
    case Logo(logo, symbol, _) => e.(logo := logo, symbol := symbol)
  }

  function PatchRow(r: Row, u: Update): Row {
    match u
    case Price(price) => r.(price := price)
    case Symbol(symbol) => r.(symbol := symbol)
    case Logo(logo, symbol, decimals) => r.(logo := logo, symbol := symbol, decimals := decimals)
  }

  /** CheckTokenInfo: insert a row that is not there; its error is only logged by the callers. */
  function EnsureRow(s: Store, k: Key, lookup: bool, create: bool): Store {
    if lookup || k in s.rows || create then s else s.(rows := s.rows[k := EmptyRow])
  }

  predicate Hit(s: Store, k: Key, f: Faults) {
    k in s.redis && !f.getFails
  }

  datatype Checked = Checked(store: Store, hasNew: bool, failed: bool)

  /** CheckXData: compare with the cached entry and write the new value to Redis first. */
  function Check(s: Store, k: Key, u: Update, f: Faults): Checked {
    if Hit(s, k, f) then
      if Same(s.redis[k], u) then Checked(s, false, false)
      else if f.setFails then Checked(s, true, true)
      else Checked(s.(redis := s.redis[k := Patch(s.redis[k], u)]), true, false)
    else
      var s1 := EnsureRow(s, k, f.lookupFails, f.createFails);
      if f.setFails then Checked(s1, false, true)
      else Checked(s1.(redis := s1.redis[k := Patch(EmptyEntry, u)]), true, false)
  }

  /** SaveXData: an update of a row that does not exist changes nothing and reports nothing. */
  function Save(s: Store, k: Key, u: Update, f: Faults): Store {
    if f.updateFails || k !in s.rows then s else s.(rows := s.rows[k := PatchRow(s.rows[k], u)])
  }

  /** One completed check-and-save pair, as every job runs it for one token. */
  function Write(s: Store, k: Key, u: Update, f: Faults): Store {
    var c := Check(s, k, u, f);
    if c.failed || !c.hasNew then c.store else Save(c.store, k, u, f)
  }

  // ----- The reader -----

  function EntryOf(r: Row): Entry {
    Entry(r.logo, r.symbol, r.price)
  }

  datatype View = View(store: Store, entry: Entry, failed: bool)

  /** GetTokenInfo: Redis first, then the table, filling Redis from the row found. */
  function Read(s: Store, k: Key, f: Faults): View {
    if Hit(s, k, f) then View(s, s.redis[k], false)
    else if f.lookupFails then View(s, EmptyEntry, true)
    else if k !in s.rows then View(s, EmptyEntry, false)
    else
      var e := EntryOf(s.rows[k]);
      View(if f.setFails then s else s.(redis := s.redis[k := e]), e, false)
  }

  // ----- Runs -----

  datatype Op =
    | WriteOp(k: Key, u: Update, f: Faults)
    | ReadOp(k: Key, f: Faults)
    | InsertOp(k: Key, lookup: bool, create: bool)

  function Apply(s: Store, op: Op): Store {
    match op
    case WriteOp(k, u, f) => Write(s, k, u, f)
    case ReadOp(k, f) => Read(s, k, f).store
    case InsertOp(k, lookup, create) => EnsureRow(s, k, lookup, create)
  }

  function ApplyAll(s: Store, ops: seq<Op>): Store
    decreases |ops|
  {
    if ops == [] then s else ApplyAll(Apply(s, ops[0]), ops[1..])
  }

  // ----- The jobs -----

  /** What a job does for one token: a check-and-save pair, or nothing when it skips the token. */
  datatype Planned = Planned(k: Key, u: Option<Update>, f: Faults)

  function WriteOne(s: Store, p: Planned): Store {
    if p.u.None? then s else Write(s, p.k, p.u.value, p.f)
  }

  function WriteAll(s: Store, plan: seq<Planned>): Store {
    if plan == [] then s else WriteOne(WriteAll(s, plan[..|plan| - 1]), plan[|plan| - 1])
  }

  /** A token of the table snapshot a job walks, with what its chain read returned. */
  datatype Listed = Listed(k: Key, reading: Option<string>, f: Faults)

  /** Only test-net tokens are read from the oracle; every other chain gets price zero. */
  function PriceFor(testNet: string, t: Listed): Option<Update> {
    if t.k.token == "" then None
    else if t.k.chainId != testNet then Some(Price("0"))
    else if t.reading.None? then None
    else Some(Price(t.reading.value))
  }

  function PricePlan(testNet: string, tokens: seq<Listed>): seq<Planned> {
    seq(|tokens|, i requires 0 <= i < |tokens| => Planned(tokens[i].k, PriceFor(testNet, tokens[i]), tokens[i].f))
  }

  function SymbolFor(testNet: string, mainNet: string, t: Listed): Option<Update> {
    if t.k.token == "" || (t.k.chainId != testNet && t.k.chainId != mainNet) || t.reading.None? then None
    else Some(Symbol(t.reading.value))
  }

  function SymbolPlan(testNet: string, mainNet: string, tokens: seq<Listed>): seq<Planned> {
    seq(|tokens|, i requires 0 <= i < |tokens| =>
      Planned(tokens[i].k, SymbolFor(testNet, mainNet, tokens[i]), tokens[i].f))
  }

  datatype LogoEntry = LogoEntry(k: Key, logo: string, symbol: string, decimals: int, f: Faults)

  datatype RemoteList = HttpFailed | NotJson | Tokens(list: seq<LogoEntry>)

  function LogoUpdate(e: LogoEntry): Update {
    Logo(e.logo, e.symbol, e.decimals)
  }

  function RemotePlan(list: seq<LogoEntry>): seq<Planned> {
    seq(|list|, i requires 0 <= i < |list| => Planned(list[i].k, Some(LogoUpdate(list[i])), list[i].f))
  }

  /** The built-in table, in whatever order the nested maps are iterated; empty tokens are skipped. */
  function LocalPlan(table: seq<LogoEntry>): seq<Planned> {
    seq(|table|, i requires 0 <= i < |table| =>
      Planned(table[i].k, if table[i].k.token == "" then None else Some(LogoUpdate(table[i])), table[i].f))
  }

  /** A remote list that does not parse ends the job before the local pass. */
  function LogoJob(s: Store, remote: RemoteList, table: seq<LogoEntry>): Store {
    match remote
    case HttpFailed => WriteAll(s, LocalPlan(table))
    case NotJson => s
    case Tokens(list) => WriteAll(WriteAll(s, RemotePlan(list)), LocalPlan(table))
  }
}
