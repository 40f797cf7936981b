/** The pools a trade may be routed through: `useAllCommonPairs` of pledge-fe/src/hooks/Trades.ts. */
module Trades {
  import opened Prelude

  /** `equals` compares chain and address, so equality of values is meant. */
  datatype Token = Token(chainId: nat, address: string)

  type TokenPair = (Token, Token)

  datatype Pair = Pair(poolAddress: string, token0: Token, token1: Token)

  datatype PairState = Loading | NotExists | Exists | Invalid

  /** The custom bases of the chain, if it has any, by token address. */
  type CustomBases = Option<map<string, seq<Token>>>

  // ----- Candidate pairs -----

  predicate Distinct(p: TokenPair) {
    p.0.address != p.1.address
  }

  function Against(token: Token, bases: seq<Token>): seq<TokenPair> {
    seq(|bases|, i requires 0 <= i < |bases| => (token, bases[i]))
  }

  function FlatPairs(bases: seq<Token>, otherBases: seq<Token>): seq<TokenPair> {
    if bases == [] then [] else Against(bases[0], otherBases) + FlatPairs(bases[1..], otherBases)
  }

  function Filter(pairs: seq<TokenPair>, keep: TokenPair -> bool): seq<TokenPair> {
    if pairs == [] then []
    else (if keep(pairs[0]) then [pairs[0]] else []) + Filter(pairs[1..], keep)
  }

  function BasePairs(bases: seq<Token>): seq<TokenPair> {
    Filter(FlatPairs(bases, bases), Distinct)
  }

  /** The custom-base filter, branch by branch. */
  predicate Permitted(custom: CustomBases, p: TokenPair) {
    if custom.None? then true
    else
      var basesA := if p.0.address in custom.value then Some(custom.value[p.0.address]) else None;
      var basesB := if p.1.address in custom.value then Some(custom.value[p.1.address]) else None;
      if basesA.None? && basesB.None? then true
      else if basesA.Some? && p.1 !in basesA.value then false
      else if basesB.Some? && p.0 !in basesB.value then false
      else true
  }

  function Combinations(a: Token, b: Token, bases: seq<Token>): seq<TokenPair> {
    [(a, b)] + Against(a, bases) + Against(b, bases) + BasePairs(bases)
  }

  function Candidates(
    tokenA: Option<Token>, tokenB: Option<Token>, bases: seq<Token>, custom: CustomBases): seq<TokenPair>
  {
    if tokenA.None? || tokenB.None? then []
    else
      Filter(Filter(Combinations(tokenA.value, tokenB.value, bases), Distinct), p => Permitted(custom, p))
  }

  lemma {:induction false} FilterMembers(pairs: seq<TokenPair>, keep: TokenPair -> bool, p: TokenPair)
    ensures p in Filter(pairs, keep) <==> p in pairs && keep(p)
  {
    if pairs != [] {
      FilterMembers(pairs[1..], keep, p);
      assert pairs == [pairs[0]] + pairs[1..];
    }
  }

  lemma AgainstMembers(token: Token, bases: seq<Token>, p: TokenPair)
    ensures p in Against(token, bases) <==> p.0 == token && p.1 in bases
  {
    if p.0 == token && p.1 in bases {
      var i :| 0 <= i < |bases| && bases[i] == p.1;
      assert Against(token, bases)[i] == p;
    }
  }

  lemma {:induction false} FlatPairsMembers(bases: seq<Token>, otherBases: seq<Token>, p: TokenPair)
    ensures p in FlatPairs(bases, otherBases) <==> p.0 in bases && p.1 in otherBases
  {
    if bases != [] {
      AgainstMembers(bases[0], otherBases, p);
      FlatPairsMembers(bases[1..], otherBases, p);
      assert bases == [bases[0]] + bases[1..];
    }
  }

  /** If the chain's custom bases have an entry for the token, the other token is in it. */
  predicate Accepts(custom: CustomBases, token: Token, other: Token) {
    custom.Some? && token.address in custom.value ==> other in custom.value[token.address]
  }

  /** The two tokens have different addresses and accept each other. */
  predicate Tradable(custom: CustomBases, p: TokenPair) {
    p.0.address != p.1.address && Accepts(custom, p.0, p.1) && Accepts(custom, p.1, p.0)
  }

  lemma CandidateMembers(a: Token, b: Token, bases: seq<Token>, custom: CustomBases, p: TokenPair)
    ensures p in Candidates(Some(a), Some(b), bases, custom) <==>
      && Distinct(p) && Permitted(custom, p)
      && (p == (a, b) || (p.0 == a && p.1 in bases) || (p.0 == b && p.1 in bases) || (p.0 in bases && p.1 in bases))
  {
    var all := Combinations(a, b, bases);
    FilterMembers(Filter(all, Distinct), p => Permitted(custom, p), p);
    FilterMembers(all, Distinct, p);
    FilterMembers(FlatPairs(bases, bases), Distinct, p);
    AgainstMembers(a, bases, p);
    AgainstMembers(b, bases, p);
    FlatPairsMembers(bases, bases, p);
  }

  /** Exactly which pairs are candidates: tokens that accept each other, as the direct pair, an end against a
      base, or a base against a base. */
  lemma CandidatesExactly(a: Token, b: Token, bases: seq<Token>, custom: CustomBases, p: TokenPair)
    ensures p in Candidates(Some(a), Some(b), bases, custom) <==>
      && Tradable(custom, p)
      && (p == (a, b) || (p.0 == a && p.1 in bases) || (p.0 == b && p.1 in bases) || (p.0 in bases && p.1 in bases))
  {
    CandidateMembers(a, b, bases, custom, p);
    PermittedIff(custom, p);
  }

  /** Without an entry for either token, different addresses are all it takes; that is the repository's own
      setting, where the custom bases of the chain are empty. */
  lemma NoEntryNoFilter(a: Token, b: Token, bases: seq<Token>, custom: CustomBases, p: TokenPair)
    requires custom.None? || (p.0.address !in custom.value && p.1.address !in custom.value)
    requires p == (a, b) || (p.0 == a && p.1 in bases) || (p.0 == b && p.1 in bases) || (p.0 in bases && p.1 in bases)
    ensures p in Candidates(Some(a), Some(b), bases, custom) <==> p.0.address != p.1.address
  {
    CandidatesExactly(a, b, bases, custom, p);
  }

  /** Without both ends there are no candidates. */
  lemma NoEndNoCandidates(
    tokenA: Option<Token>, tokenB: Option<Token>, bases: seq<Token>, custom: CustomBases)
    ensures tokenA.None? || tokenB.None? ==> Candidates(tokenA, tokenB, bases, custom) == []
  {
  }

  function Shifted(at: seq<nat>): seq<nat> {
    seq(|at|, k requires 0 <= k < |at| => at[k] + 1)
  }

  lemma ShiftedMembers(at: seq<nat>, i: nat)
    ensures i in Shifted(at) <==> i > 0 && i - 1 in at
  {
    if i > 0 && i - 1 in at {
      var k :| 0 <= k < |at| && at[k] == i - 1;
      assert Shifted(at)[k] == i;
    }
  }

  /** `at` lists, in order and once each, the places of `pairs` that `keep` keeps. */
  ghost predicate Places(pairs: seq<TokenPair>, keep: TokenPair -> bool, at: seq<nat>) {
    && (forall k, l :: 0 <= k < l < |at| ==> at[k] < at[l])
    && (forall i: nat :: i in at <==> i < |pairs| && keep(pairs[i]))
  }

  lemma PlacesShifted(pairs: seq<TokenPair>, keep: TokenPair -> bool, rest: seq<nat>)
    requires pairs != [] && Places(pairs[1..], keep, rest)
    ensures Places(pairs, keep, (if keep(pairs[0]) then [0] else []) + Shifted(rest))
  {
    var at := (if keep(pairs[0]) then [0] else []) + Shifted(rest);
    forall i: nat
      ensures i in at <==> i < |pairs| && keep(pairs[i])
    {
      ShiftedMembers(rest, i);
      assert i > 0 && i < |pairs| ==> pairs[1..][i - 1] == pairs[i];
    }
  }

  /** `kept` has the pairs at the places `at`, one after another. */
  predicate Selects(pairs: seq<TokenPair>, kept: seq<TokenPair>, at: seq<nat>) {
    |at| == |kept| && forall k :: 0 <= k < |at| ==> at[k] < |pairs| && kept[k] == pairs[at[k]]
  }

  lemma SelectsShifted(pairs: seq<TokenPair>, kept: seq<TokenPair>, rest: seq<nat>)
    requires pairs != [] && Selects(pairs[1..], kept, rest)
    ensures Selects(pairs, kept, Shifted(rest))
    ensures Selects(pairs, [pairs[0]] + kept, [0] + Shifted(rest))
  {
    assert forall k :: 0 <= k < |rest| ==> pairs[1..][rest[k]] == pairs[rest[k] + 1];
  }

  /** Filtering keeps the pairs that pass, in order and each place once. */
  lemma {:induction false} FilterInOrder(pairs: seq<TokenPair>, keep: TokenPair -> bool) returns (at: seq<nat>)
    ensures Places(pairs, keep, at) && Selects(pairs, Filter(pairs, keep), at)
  {
    at := [];
    if pairs != [] {
      var rest := FilterInOrder(pairs[1..], keep);
      PlacesShifted(pairs, keep, rest);
      SelectsShifted(pairs, Filter(pairs[1..], keep), rest);
      if keep(pairs[0]) {
        at := [0] + Shifted(rest);
      } else {
        assert [] + Shifted(rest) == Shifted(rest);
        assert [] + Filter(pairs[1..], keep) == Filter(pairs[1..], keep);
        at := Shifted(rest);
      }
    }
  }

  /** The direct pair is tried first, if its tokens accept each other. */
  lemma DirectPairFirst(a: Token, b: Token, bases: seq<Token>, custom: CustomBases)
    requires Tradable(custom, (a, b))
    ensures var found := Candidates(Some(a), Some(b), bases, custom); found != [] && found[0] == (a, b)
  {
  }

  function Flip(p: TokenPair): TokenPair {
    (p.1, p.0)
  }

  /** The filter of the source, whichever way round the pair is given. */
  lemma PermittedIff(custom: CustomBases, p: TokenPair)
    ensures Permitted(custom, p) <==> Accepts(custom, p.0, p.1) && Accepts(custom, p.1, p.0)
    ensures Permitted(custom, Flip(p)) <==> Permitted(custom, p)
  {
  }

  /** A route from `a` to `b` whose tokens in between are bases. */
  ghost predicate BaseRoute(route: seq<Token>, a: Token, b: Token, bases: seq<Token>) {
    && |route| >= 2 && route[0] == a && route[|route| - 1] == b
    && (forall i :: 0 < i < |route| - 1 ==> route[i] in bases)
  }

  predicate Covered(pairs: seq<TokenPair>, p: TokenPair) {
    p in pairs || Flip(p) in pairs
  }

  /** A hop of a route over the bases is a candidate, in some orientation, exactly when its tokens have
      different addresses and accept each other. */
  lemma RouteHopsCovered(route: seq<Token>, a: Token, b: Token, bases: seq<Token>, custom: CustomBases, i: nat)
    requires BaseRoute(route, a, b, bases) && i < |route| - 1
    ensures var hop := (route[i], route[i + 1]);
      Covered(Candidates(Some(a), Some(b), bases, custom), hop) <==> Tradable(custom, hop)
  {
    var hop := (route[i], route[i + 1]);
    CandidatesExactly(a, b, bases, custom, hop);
    CandidatesExactly(a, b, bases, custom, Flip(hop));
  }

  // ----- From candidates to pools -----

  /** The reduce: an address already in the memo keeps its pair; `Object.values` lists insertion order. */
  method Deduplicate(found: seq<Pair>) returns (pools: seq<Pair>)
    ensures pools == Firsts(found)
  {
    var memo: map<string, Pair> := map[];
    pools := [];
    for i := 0 to |found|
      invariant pools == Firsts(found[..i])
      invariant forall address :: address in memo <==> exists p :: p in found[..i] && p.poolAddress == address
    {
      var curr := found[i];
      assert found[..i + 1] == found[..i] + [curr];
      if curr.poolAddress !in memo {
        memo := memo[curr.poolAddress := curr];
        pools := pools + [curr];
      }
    }
    assert found[..|found|] == found;
  }

  ghost predicate Seen(found: seq<Pair>, address: string) {
    exists p :: p in found && p.poolAddress == address
  }

  /** The pairs whose address does not occur further left. */
  ghost function Firsts(found: seq<Pair>): seq<Pair> {
    if found == [] then []
    else
      var front, last := found[..|found| - 1], found[|found| - 1];
      Firsts(front) + if Seen(front, last.poolAddress) then [] else [last]
  }

  ghost predicate FirstOf(found: seq<Pair>, i: int) {
    0 <= i < |found| && forall j :: 0 <= j < i ==> found[j].poolAddress != found[i].poolAddress
  }

  ghost predicate NoRepeats(pools: seq<Pair>) {
    forall i, j :: 0 <= i < j < |pools| ==> pools[i].poolAddress != pools[j].poolAddress
  }

  /** Deduplication lists, in list order, exactly the first pair of each address: `at` has their positions. */
  lemma {:induction false} FirstsInOrder(found: seq<Pair>) returns (at: seq<nat>)
    ensures |at| == |Firsts(found)|
    ensures forall k :: 0 <= k < |at| ==> FirstOf(found, at[k]) && Firsts(found)[k] == found[at[k]]
    ensures forall k, l :: 0 <= k < l < |at| ==> at[k] < at[l]
    ensures forall i :: FirstOf(found, i) ==> i in at
  {
    at := [];
    if found != [] {
      var n := |found| - 1;
      var front, last := found[..n], found[n];
      assert found == front + [last];
      at := FirstsInOrder(front);
      assert FirstOf(found, n) <==> !Seen(front, last.poolAddress);
      assert forall i :: 0 <= i < n ==> (FirstOf(found, i) <==> FirstOf(front, i));
      if !Seen(front, last.poolAddress) {
        at := at + [n];
      }
    }
  }

  /** It loses no address and repeats none. */
  lemma {:induction false} FirstsCover(found: seq<Pair>)
    ensures NoRepeats(Firsts(found))
    ensures forall address :: Seen(Firsts(found), address) <==> Seen(found, address)
  {
    if found != [] {
      var front, last := found[..|found| - 1], found[|found| - 1];
      assert found == front + [last];
      FirstsCover(front);
      forall address
        ensures Seen(Firsts(found), address) <==> Seen(found, address)
      {
        assert Seen(Firsts(front), address) <==> Seen(front, address);
        assert last in found;
      }
      assert forall i :: 0 <= i < |Firsts(front)| ==> Firsts(front)[i] in Firsts(front);
    }
  }

  datatype PairResult = PairResult(state: PairState, pair: Option<Pair>)

  /** The results that are existing pairs, in candidate order. */
  function Found(candidates: seq<TokenPair>, lookup: TokenPair -> PairResult): seq<Pair> {
    if candidates == [] then []
    else
      var r := lookup(candidates[0]);
      (if r.state == Exists && r.pair.Some? then [r.pair.value] else []) + Found(candidates[1..], lookup)
  }

  lemma {:induction false} FoundMembers(candidates: seq<TokenPair>, lookup: TokenPair -> PairResult, p: TokenPair)
    requires p in candidates && lookup(p).state == Exists && lookup(p).pair.Some?
    ensures lookup(p).pair.value in Found(candidates, lookup)
  {
    if p != candidates[0] {
      assert candidates == [candidates[0]] + candidates[1..];
      FoundMembers(candidates[1..], lookup, p);
    }
  }

  /** Nothing else is found: each pair is the existing pool of some candidate. */
  lemma {:induction false} FoundExactly(candidates: seq<TokenPair>, lookup: TokenPair -> PairResult, pair: Pair)
    ensures pair in Found(candidates, lookup) <==>
      exists p :: p in candidates && lookup(p) == PairResult(Exists, Some(pair))
  {
    if candidates != [] {
      FoundExactly(candidates[1..], lookup, pair);
      assert candidates == [candidates[0]] + candidates[1..];
      if p :| p in candidates && lookup(p) == PairResult(Exists, Some(pair)) {
        FoundMembers(candidates, lookup, p);
      }
    }
  }

  ghost function CommonPairs(
    a: Option<Token>, b: Option<Token>, bases: seq<Token>, custom: CustomBases, lookup: TokenPair -> PairResult)
    : seq<Pair>
  {
    Firsts(Found(Candidates(a, b, bases, custom), lookup))
  }

  /** The listed pools have exactly the addresses of the existing pools of candidates, each once. */
  lemma CommonPairsExactly(
    a: Option<Token>, b: Option<Token>, bases: seq<Token>, custom: CustomBases, lookup: TokenPair -> PairResult,
    address: string)
    ensures var pools := CommonPairs(a, b, bases, custom, lookup);
      && NoRepeats(pools)
      && (Seen(pools, address) <==>
            exists p, pair :: p in Candidates(a, b, bases, custom)
              && lookup(p) == PairResult(Exists, Some(pair)) && pair.poolAddress == address)
  {
    var candidates := Candidates(a, b, bases, custom);
    var found := Found(candidates, lookup);
    FirstsCover(found);
    assert Seen(CommonPairs(a, b, bases, custom, lookup), address) <==> Seen(found, address);
    forall pair
      ensures pair in found <==> exists p :: p in candidates && lookup(p) == PairResult(Exists, Some(pair))
    {
      FoundExactly(candidates, lookup, pair);
    }
  }

  /** Every hop of a route over the bases whose tokens accept each other and that has a pool is served by exactly
      one listed pool: the list has one pair with that pool's address. */
  lemma {:induction false} RouteHopHasOnePool(
    route: seq<Token>, a: Token, b: Token, bases: seq<Token>, custom: CustomBases,
    lookup: TokenPair -> PairResult, i: nat)
    requires BaseRoute(route, a, b, bases) && i < |route| - 1
    requires forall p :: lookup(p) == lookup(Flip(p))
    requires Tradable(custom, (route[i], route[i + 1]))
    requires lookup((route[i], route[i + 1])).state == Exists && lookup((route[i], route[i + 1])).pair.Some?
    ensures var pools := CommonPairs(Some(a), Some(b), bases, custom, lookup);
      var pool := lookup((route[i], route[i + 1])).pair.value;
      && NoRepeats(pools)
      && (exists k :: 0 <= k < |pools| && pools[k].poolAddress == pool.poolAddress)
  {
    var hop := (route[i], route[i + 1]);
    var candidates := Candidates(Some(a), Some(b), bases, custom);
    var pool := lookup(hop).pair.value;
    RouteHopsCovered(route, a, b, bases, custom, i);
    assert lookup(hop) == lookup(Flip(hop));
    FoundMembers(candidates, lookup, if hop in candidates then hop else Flip(hop));
    var found := Found(candidates, lookup);
    assert Seen(found, pool.poolAddress);
    FirstsCover(found);
    assert Seen(Firsts(found), pool.poolAddress);
    var p :| p in Firsts(found) && p.poolAddress == pool.poolAddress;
  }
}
