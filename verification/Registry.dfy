/**
 Token-pair to pool resolution: the u128-canonical registry, the per-hop lookup,
 and the routing of a validated reveal's path.
 */
module Registry {
  import opened FixedPoint

  const U128: nat := 0x1_0000_0000_0000_0000_0000_0000_0000_0000

  datatype PoolEntry = PoolEntry(
    poolId: nat, tokenA: nat, tokenB: nat, tokenAFull: nat, tokenBFull: nat)

  datatype ConfigPool = ConfigPool(poolId: nat, tokenA: nat, tokenB: nat)

  /** Two tokens for a direct order, three for a two-hop order. */
  type PathLen = n: nat | n == 2 || n == 3 witness 2

  type Path = (nat, nat, nat)

  function Token(p: Path, i: nat): nat {
    if i == 0 then p.0 else if i == 1 then p.1 else p.2
  }

  function Low(a: nat): nat {
    a % U128
  }

  /** The pool of an unordered canonical pair, or -1. */
  function ResolvePoolId(reg: seq<PoolEntry>, a: nat, b: nat): (r: int)
    ensures r == -1 || exists p :: p in reg && p.poolId == r && {p.tokenA, p.tokenB} == {a, b}
  {
    var lo, hi := if a < b then a else b, if a < b then b else a;
    if |reg| == 0 then -1
    else if reg[0].tokenA == lo && reg[0].tokenB == hi then reg[0].poolId
    else ResolvePoolId(reg[1..], a, b)
  }

  /** The same lookup on full field tokens, truncated first. */
  function ResolvePoolIdU128(reg: seq<PoolEntry>, a: nat, b: nat): int {
    ResolvePoolId(reg, Low(a), Low(b))
  }

  function Entry(c: ConfigPool): PoolEntry {
    var a, b := Low(c.tokenA), Low(c.tokenB);
    if a < b then PoolEntry(c.poolId, a, b, c.tokenA, c.tokenB)
    else PoolEntry(c.poolId, b, a, c.tokenB, c.tokenA)
  }

  /** Registry entries order truncated and full tokens by the same truncated key. */
  function BuildU128PoolRegistry(config: seq<ConfigPool>): (r: seq<PoolEntry>)
    ensures |r| == |config|
  {
    seq(|config|, i requires 0 <= i < |config| => Entry(config[i]))
  }

  /** The pool of every hop of a token path, in order. */
  function Hops(reg: seq<PoolEntry>, path: Path, count: nat): (r: Result<seq<nat>>)
    ensures r.Ok? ==> |r.value| == count
    ensures r.Err? ==> r.error == NoPool
  {
    if count == 0 then Ok([])
    else
      var earlier :- Hops(reg, path, count - 1);
      var pid := ResolvePoolId(reg, Token(path, count - 1), Token(path, count));
      if pid < 0 then Err(NoPool) else Ok(earlier + [pid])
  }

  datatype RoutedPath = RoutedPath(
    pathLen: PathLen, path: Path, routingPath: Path, hops: seq<nat>, usedFallback: bool)

  predicate Omitted(path: Path) {
    path.0 == 0 && path.1 == 0
  }

  method ResolveHopPools(reg: seq<PoolEntry>, path: seq<nat>) returns (r: Result<seq<nat>>)
    ensures |path| < 2 || |path| > 3 ==> r == Err(BadPathLength)
    ensures 2 <= |path| <= 3 ==>
      r == Hops(reg, (path[0], path[1], if |path| == 3 then path[2] else 0), |path| - 1)
  {
    if |path| < 2 || |path| > 3 {
      return Err(BadPathLength);
    }
    ghost var p := (path[0], path[1], if |path| == 3 then path[2] else 0);
    var hops: seq<nat> := [];
    for i := 0 to |path| - 1
      invariant Hops(reg, p, i) == Ok(hops)
    {
      assert path[i] == Token(p, i) && path[i + 1] == Token(p, i + 1);
      var pid := ResolvePoolId(reg, path[i], path[i + 1]);
      if pid < 0 {
        FailedHop(reg, p, i + 1, |path| - 1);
        return Err(NoPool);
      }
      hops := hops + [pid];
    }
    return Ok(hops);
  }

  lemma {:induction false} FailedHop(reg: seq<PoolEntry>, path: Path, i: nat, count: nat)
    requires i <= count && Hops(reg, path, i) == Err(NoPool)
    ensures Hops(reg, path, count) == Err(NoPool)
  {
    if i < count {
      FailedHop(reg, path, i, count - 1);
    }
  }

  /** Route a validated reveal; a path that was left out falls back to pool 0's pair. */
  method ResolveRevealPath(reg: seq<PoolEntry>, pathLen: nat, path: Path, fallback: Path)
    returns (r: Result<RoutedPath>)
    ensures r == RevealRoute(reg, pathLen, path, fallback)
  {
    var omitted := Omitted(path);
    var full := if omitted then fallback else path;
    var len: PathLen := if omitted then 2 else if pathLen == 3 then 3 else 2;
    var routing := (Low(full.0), Low(full.1), Low(full.2));
    var hops: seq<nat> := [];
    for i := 0 to len - 1
      invariant Hops(reg, routing, i) == Ok(hops)
    {
      var pid := ResolvePoolIdU128(reg, Token(full, i), Token(full, i + 1));
      assert Low(Token(full, i)) == Token(routing, i) && Low(Token(full, i + 1)) == Token(routing, i + 1);
      if pid < 0 {
        FailedHop(reg, routing, i + 1, len - 1);
        return Err(NoPool);
      }
      hops := hops + [pid];
    }
    return Ok(RoutedPath(len, full, routing, hops, omitted));
  }

  /**
   The routing of a reveal: full tokens for the commitment, truncated tokens for
   resolution, hops resolved on the truncated tokens.
   */
  function RevealRoute(reg: seq<PoolEntry>, pathLen: nat, path: Path, fallback: Path): Result<RoutedPath> {
    var omitted := Omitted(path);
    var full := if omitted then fallback else path;
    var len: PathLen := if omitted then 2 else if pathLen == 3 then 3 else 2;
    var routing := (Low(full.0), Low(full.1), Low(full.2));
    var hops :- Hops(reg, routing, len - 1);
    Ok(RoutedPath(len, full, routing, hops, omitted))
  }

  // ----------------------------------------------------------------- lemmas

  /** Direction does not matter. */
  lemma {:induction false} ResolutionIsSymmetric(reg: seq<PoolEntry>, a: nat, b: nat)
    ensures ResolvePoolId(reg, a, b) == ResolvePoolId(reg, b, a)
  {
    if |reg| > 0 {
      ResolutionIsSymmetric(reg[1..], a, b);
    }
  }

  /** A built registry resolves a configured pair, either way round, to the first pool with that pair. */
  lemma {:induction false} BuiltRegistryResolves(config: seq<ConfigPool>, a: nat, b: nat, i: nat)
    requires i < |config|
    requires {Low(config[i].tokenA), Low(config[i].tokenB)} == {Low(a), Low(b)}
    requires forall j :: 0 <= j < i ==> {Low(config[j].tokenA), Low(config[j].tokenB)} != {Low(a), Low(b)}
    ensures ResolvePoolIdU128(BuildU128PoolRegistry(config), a, b) == config[i].poolId
  {
    var reg := BuildU128PoolRegistry(config);
    PairKey(config[0], a, b);
    if i > 0 {
      assert reg[1..] == BuildU128PoolRegistry(config[1..]);
      BuiltRegistryResolves(config[1..], a, b, i - 1);
    }
  }

  lemma {:induction false} HopTradesTokens(reg: seq<PoolEntry>, path: Path, count: nat, i: nat)
    requires Hops(reg, path, count).Ok? && i < count
    ensures Hops(reg, path, count).value[i] == ResolvePoolId(reg, Token(path, i), Token(path, i + 1))
  {
    if i < count - 1 {
      HopTradesTokens(reg, path, count - 1, i);
    }
  }

  lemma EntryPair(c: ConfigPool)
    ensures {Entry(c).tokenA, Entry(c).tokenB} == {Low(c.tokenA), Low(c.tokenB)}
  {
    hide Low;
  }

  /** What a built registry resolves is a configured pool with that truncated pair. */
  lemma ResolvedPool(config: seq<ConfigPool>, a: nat, b: nat) returns (c: ConfigPool)
    requires ResolvePoolId(BuildU128PoolRegistry(config), a, b) >= 0
    ensures c in config && c.poolId == ResolvePoolId(BuildU128PoolRegistry(config), a, b)
    ensures {Low(c.tokenA), Low(c.tokenB)} == {a, b}
  {
    hide Low, Entry, ResolvePoolId;
    var reg := BuildU128PoolRegistry(config);
    var pid := ResolvePoolId(reg, a, b);
    var p :| p in reg && p.poolId == pid && {p.tokenA, p.tokenB} == {a, b};
    var k :| 0 <= k < |reg| && reg[k] == p;
    c := config[k];
    EntryPair(c);
    EntryId(c);
  }

  /** Each entry of a built registry keeps its pool; truncated tokens ascend, and full ones are aligned with them. */
  lemma EntryAligned(config: seq<ConfigPool>, i: nat)
    requires i < |config|
    ensures
      var e, c := BuildU128PoolRegistry(config)[i], config[i];
      && e.poolId == c.poolId && {e.tokenAFull, e.tokenBFull} == {c.tokenA, c.tokenB}
      && e.tokenA <= e.tokenB && e.tokenA == e.tokenAFull % U128 && e.tokenB == e.tokenBFull % U128
  {}

  lemma EntryId(c: ConfigPool)
    ensures Entry(c).poolId == c.poolId
  {}

  lemma LowToken(full: Path, i: nat)
    ensures Token((Low(full.0), Low(full.1), Low(full.2)), i) == Low(Token(full, i))
  {
    hide Low;
  }

  /** Every hop of a routed reveal is a configured pool whose pair is, truncated, that hop's pair of bound tokens. */
  lemma RoutedHopsTradePath(config: seq<ConfigPool>, pathLen: nat, path: Path, fallback: Path, i: nat)
    requires RevealRoute(BuildU128PoolRegistry(config), pathLen, path, fallback).Ok?
    requires i < |RevealRoute(BuildU128PoolRegistry(config), pathLen, path, fallback).value.hops|
    ensures
      var route := RevealRoute(BuildU128PoolRegistry(config), pathLen, path, fallback).value;
      && route.path == (if path.0 == 0 && path.1 == 0 then fallback else path)
      && i + 1 < route.pathLen
      && exists c :: c in config && c.poolId == route.hops[i]
           && {Low(c.tokenA), Low(c.tokenB)} == {Low(Token(route.path, i)), Low(Token(route.path, i + 1))}
  {
    hide Low, Hops, ResolvePoolId, BuildU128PoolRegistry, Token;
    var reg := BuildU128PoolRegistry(config);
    var route := RevealRoute(reg, pathLen, path, fallback).value;
    HopTradesTokens(reg, route.routingPath, route.pathLen - 1, i);
    LowToken(route.path, i);
    LowToken(route.path, i + 1);
    var c := ResolvedPool(config, Low(Token(route.path, i)), Low(Token(route.path, i + 1)));
  }

  /** A pool that trades the pair is found whenever one is configured. */
  lemma {:induction false} ConfiguredPairResolves(config: seq<ConfigPool>, a: nat, b: nat)
    ensures ResolvePoolIdU128(BuildU128PoolRegistry(config), a, b) >= 0 <==>
      exists c :: c in config && {Low(c.tokenA), Low(c.tokenB)} == {Low(a), Low(b)}
  {
    hide Low;
    var reg := BuildU128PoolRegistry(config);
    if |config| > 0 {
      PairKey(config[0], a, b);
      assert reg[1..] == BuildU128PoolRegistry(config[1..]);
      ConfiguredPairResolves(config[1..], a, b);
      assert config == [config[0]] + config[1..];
    }
  }

  /** The pair of hop i of a revealed path, or of the fallback when none was revealed. */
  predicate HopConfigured(config: seq<ConfigPool>, path: Path, fallback: Path, i: nat) {
    var full := if path.0 == 0 && path.1 == 0 then fallback else path;
    exists c :: c in config
      && {Low(c.tokenA), Low(c.tokenB)} == {Low(Token(full, i)), Low(Token(full, i + 1))}
  }

  /**
   A reveal is routed exactly when each hop of its path has a configured pool: one hop,
   or two when it names three tokens; and its truncated tokens are what is routed on.
   */
  lemma RoutedExactly(config: seq<ConfigPool>, pathLen: nat, path: Path, fallback: Path)
    ensures
      var r := RevealRoute(BuildU128PoolRegistry(config), pathLen, path, fallback);
      var omitted := path.0 == 0 && path.1 == 0;
      var twoHop := !omitted && pathLen == 3;
      && (r.Ok? <==> HopConfigured(config, path, fallback, 0)
                     && (twoHop ==> HopConfigured(config, path, fallback, 1)))
      && (r.Ok? ==>
            var full := if omitted then fallback else path;
            && r.value.pathLen == (if twoHop then 3 else 2) && |r.value.hops| == r.value.pathLen - 1
            && r.value.routingPath == (Low(full.0), Low(full.1), Low(full.2)) && r.value.usedFallback == omitted)
  {
    hide Low, ResolvePoolId, BuildU128PoolRegistry;
    var reg := BuildU128PoolRegistry(config);
    var full := if path.0 == 0 && path.1 == 0 then fallback else path;
    var routing := (Low(full.0), Low(full.1), Low(full.2));
    ConfiguredPairResolves(config, full.0, full.1);
    ConfiguredPairResolves(config, full.1, full.2);
    assert Hops(reg, routing, 0) == Ok([]);
    assert Hops(reg, routing, 1).Ok? <==> ResolvePoolId(reg, routing.0, routing.1) >= 0;
    assert Hops(reg, routing, 2).Ok? <==> Hops(reg, routing, 1).Ok? && ResolvePoolId(reg, routing.1, routing.2) >= 0;
  }

  lemma PairKey(c: ConfigPool, a: nat, b: nat)
    ensures
      var x, y := Low(a), Low(b);
      var lo, hi := if x < y then x else y, if x < y then y else x;
      (Entry(c).tokenA == lo && Entry(c).tokenB == hi) <==> {Low(c.tokenA), Low(c.tokenB)} == {x, y}
  {
    var x, y, u, v := Low(a), Low(b), Low(c.tokenA), Low(c.tokenB);
    if {u, v} == {x, y} {
      assert u in {x, y} && v in {x, y} && x in {u, v} && y in {u, v};
    }
  }
}
