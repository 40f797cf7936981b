/** The token jobs of the scheduler as they run, proved against `TokenCache`. */
module TokenJobs {
  import opened Prelude
  import opened TokenCache

  class TokenJobs {
    var redis: map<Key, Entry>
    var rows: map<Key, Row>

    const testNet: string
    const mainNet: string

    ghost function Model(): Store
      reads this
    {
      Store(redis, rows)
    }

    /** The scheduler starts by flushing Redis; the table keeps its rows. */
    constructor (rows: map<Key, Row>, testNet: string, mainNet: string)
      ensures Model() == Store(map[], rows)
      ensures this.testNet == testNet && this.mainNet == mainNet
    {
      this.redis, this.rows := map[], rows;
      this.testNet, this.mainNet := testNet, mainNet;
    }

    method RedisGet(k: Key, f: Faults) returns (e: Option<Entry>)
      ensures e == if Hit(Model(), k, f) then Some(redis[k]) else None
    {
      if f.getFails || k !in redis {
        return None;
      }
      return Some(redis[k]);
    }

    method RedisSet(k: Key, e: Entry, f: Faults) returns (failed: bool)
      modifies this`redis
      ensures failed == f.setFails
      ensures redis == if f.setFails then old(redis) else old(redis)[k := e]
    {
      if !f.setFails {
        redis := redis[k := e];
      }
      return f.setFails;
    }

    method CheckTokenInfo(k: Key, f: Faults) returns (failed: bool)
      modifies this`rows
      ensures Model() == EnsureRow(old(Model()), k, f.lookupFails, f.createFails)
      ensures failed <==> f.lookupFails || (k !in old(rows) && f.createFails)
    {
      if f.lookupFails {
        return true;
      }
      if k !in rows {
        if f.createFails {
          return true;
        }
        rows := rows[k := EmptyRow];
      }
      return false;
    }

    method CheckPriceData(k: Key, price: string, f: Faults) returns (hasNew: bool, failed: bool)
      modifies this
      ensures Checked(Model(), hasNew, failed) == Check(old(Model()), k, Price(price), f)
    {
      var cached := RedisGet(k, f);
      if cached.None? {
        var _ := CheckTokenInfo(k, f);
        failed := RedisSet(k, EmptyEntry.(price := price), f);
        if failed {
          return false, true;
        }
      } else {
        if cached.value.price == price {
          return false, false;
        }
        failed := RedisSet(k, cached.value.(price := price), f);
        if failed {
          return true, true;
        }
      }
      return true, false;
    }

    method CheckSymbolData(k: Key, symbol: string, f: Faults) returns (hasNew: bool, failed: bool)
      modifies this
      ensures Checked(Model(), hasNew, failed) == Check(old(Model()), k, Symbol(symbol), f)
    {
      var cached := RedisGet(k, f);
      if cached.None? {
        var _ := CheckTokenInfo(k, f);
        failed := RedisSet(k, EmptyEntry.(symbol := symbol), f);
        if failed {
          return false, true;
        }
      } else {
        if cached.value.symbol == symbol {
          return false, false;
        }
        failed := RedisSet(k, cached.value.(symbol := symbol), f);
        if failed {
          return true, true;
        }
      }
      return true, false;
    }

    method CheckLogoData(e: LogoEntry) returns (hasNew: bool, failed: bool)
      modifies this
      ensures Checked(Model(), hasNew, failed) == Check(old(Model()), e.k, LogoUpdate(e), e.f)
    {
      var cached := RedisGet(e.k, e.f);
      if cached.None? {
        var _ := CheckTokenInfo(e.k, e.f);
        failed := RedisSet(e.k, EmptyEntry.(logo := e.logo, symbol := e.symbol), e.f);
        if failed {
          return false, true;
        }
      } else {
        if cached.value.logo == e.logo {
          return false, false;
        }
        failed := RedisSet(e.k, cached.value.(logo := e.logo, symbol := e.symbol), e.f);
        if failed {
          return true, true;
        }
      }
      return true, false;
    }

    /** The update by token and chain of SavePriceData, SaveSymbolData and SaveLogoData. */
    method SaveData(k: Key, u: Update, f: Faults) returns (failed: bool)
      modifies this`rows
      ensures Model() == Save(old(Model()), k, u, f)
      ensures failed == f.updateFails
    {
      if !f.updateFails && k in rows {
        rows := rows[k := PatchRow(rows[k], u)];
      }
      return f.updateFails;
    }

    method UpdateContractPrice(tokens: seq<Listed>)
      modifies this
      ensures Model() == WriteAll(old(Model()), PricePlan(testNet, tokens))
    {
      ghost var plan := PricePlan(testNet, tokens);
      for i := 0 to |tokens|
        invariant Model() == WriteAll(old(Model()), plan[..i])
      {
        var t := tokens[i];
        assert plan[..i + 1][..i] == plan[..i];
        var price := "0";
        if t.k.token == "" {
          continue;
        } else if t.k.chainId == testNet {
          if t.reading.None? {
            continue;
          }
          price := t.reading.value;
        }
        var hasNew, failed := CheckPriceData(t.k, price, t.f);
        if failed {
          continue;
        }
        if hasNew {
          var _ := SaveData(t.k, Price(price), t.f);
        }
      }
      assert plan[..|tokens|] == plan;
    }

    method UpdateContractSymbol(tokens: seq<Listed>)
      modifies this
      ensures Model() == WriteAll(old(Model()), SymbolPlan(testNet, mainNet, tokens))
    {
      ghost var plan := SymbolPlan(testNet, mainNet, tokens);
      for i := 0 to |tokens|
        invariant Model() == WriteAll(old(Model()), plan[..i])
      {
        var t := tokens[i];
        assert plan[..i + 1][..i] == plan[..i];
        if t.k.token == "" || (t.k.chainId != testNet && t.k.chainId != mainNet) || t.reading.None? {
          continue;
        }
        var hasNew, failed := CheckSymbolData(t.k, t.reading.value, t.f);
        if failed {
          continue;
        }
        if hasNew {
          var _ := SaveData(t.k, Symbol(t.reading.value), t.f);
        }
      }
      assert plan[..|tokens|] == plan;
    }

    method UpdateTokenLogo(remote: RemoteList, table: seq<LogoEntry>)
      modifies this
      ensures Model() == LogoJob(old(Model()), remote, table)
    {
      ghost var afterRemote := Model();
      if remote.NotJson? {
        return;
      } else if remote.Tokens? {
        var list := remote.list;
        ghost var plan := RemotePlan(list);
        for i := 0 to |list|
          invariant Model() == WriteAll(old(Model()), plan[..i])
        {
          var e := list[i];
          assert plan[..i + 1][..i] == plan[..i];
          var hasNew, failed := CheckLogoData(e);
          if failed {
            continue;
          }
          if hasNew {
            var _ := SaveData(e.k, LogoUpdate(e), e.f);
          }
        }
        assert plan[..|list|] == plan;
        afterRemote := Model();
      }
      ghost var plan := LocalPlan(table);
      for i := 0 to |table|
        invariant Model() == WriteAll(afterRemote, plan[..i])
      {
        var e := table[i];
        assert plan[..i + 1][..i] == plan[..i];
        if e.k.token == "" {
          continue;
        }
        var hasNew, failed := CheckLogoData(e);
        if failed {
          continue;
        }
        if hasNew {
          var _ := SaveData(e.k, LogoUpdate(e), e.f);
        }
      }
      assert plan[..|table|] == plan;
    }

    method GetTokenInfo(k: Key, f: Faults) returns (e: Entry, failed: bool)
      modifies this`redis
      ensures View(Model(), e, failed) == Read(old(Model()), k, f)
    {
      var cached := RedisGet(k, f);
      if cached.Some? {
        return cached.value, false;
      }
      if f.lookupFails {
        return EmptyEntry, true;
      }
      if k !in rows {
        return EmptyEntry, false;
      }
      var row := rows[k];
      var _ := RedisSet(k, Entry(row.logo, row.symbol, row.price), f);
      return Entry(row.logo, row.symbol, row.price), false;
    }
  }
}
