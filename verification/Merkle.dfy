/**
 The settlement trees: level-by-level hashing, harvested sibling paths, and what a
 path that folds to the root proves. The reference definition of the root is the
 recursive split into halves.
 */
module Merkle {
  import opened Arithmetic
  import opened FixedPoint
  import opened Reveals

  const TREE_LEAVES: nat := 32
  const TREE_DEPTH: nat := 5

  // ------------------------------------------------------------------ levels

  function Pair(h: Hash, a: int, b: int): int {
    h([a, b])
  }

  /** The next level up. */
  function Above(h: Hash, level: seq<int>): (r: seq<int>)
    requires |level| % 2 == 0
    ensures |r| == |level| / 2
  {
    seq(|level| / 2, i requires 0 <= i < |level| / 2 => Pair(h, level[2 * i], level[2 * i + 1]))
  }

  lemma Halves(k: nat)
    requires k > 0
    ensures Pow2(k) % 2 == 0 && Pow2(k) / 2 == Pow2(k - 1)
  {}

  /** The level r steps above the leaves. */
  function Level(h: Hash, leaves: seq<int>, k: nat, r: nat): (l: seq<int>)
    requires |leaves| == Pow2(k) && r <= k
    ensures |l| == Pow2(k - r)
    decreases r
  {
    if r == 0 then leaves
    else
      Halves(k - r + 1);
      Above(h, Level(h, leaves, k, r - 1))
  }

  function Root(h: Hash, leaves: seq<int>, k: nat): int
    requires |leaves| == Pow2(k)
  {
    Level(h, leaves, k, k)[0]
  }

  /** Reference root: hash the roots of the two halves. */
  function TreeRoot(h: Hash, leaves: seq<int>, k: nat): int
    requires |leaves| == Pow2(k)
    decreases k
  {
    if k == 0 then leaves[0]
    else Pair(h, TreeRoot(h, leaves[..Pow2(k - 1)], k - 1), TreeRoot(h, leaves[Pow2(k - 1)..], k - 1))
  }

  // ------------------------------------------------------------------- paths

  /** `idx ^ 1` and `idx >> 1` on indices. */
  function Sibling(idx: nat): nat {
    if idx % 2 == 0 then idx + 1 else idx - 1
  }

  /** Sibling hashes from the leaf up, from level r on. */
  function Harvest(h: Hash, leaves: seq<int>, k: nat, r: nat, idx: nat): seq<int>
    requires |leaves| == Pow2(k) && r <= k && idx < Pow2(k - r)
    decreases k - r
  {
    if r == k then []
    else
      Halves(k - r);
      [Level(h, leaves, k, r)[Sibling(idx)]] + Harvest(h, leaves, k, r + 1, idx / 2)
  }

  /** The verifier's fold: the index bits say on which side each sibling stands. */
  function FoldPath(h: Hash, x: int, idx: nat, siblings: seq<int>): int
    decreases |siblings|
  {
    if |siblings| == 0 then x
    else if idx % 2 == 0 then FoldPath(h, Pair(h, x, siblings[0]), idx / 2, siblings[1..])
    else FoldPath(h, Pair(h, siblings[0], x), idx / 2, siblings[1..])
  }

  // ------------------------------------------------------------------ leaves

  datatype FillEntry = FillEntry(orderNonce: int, amountOut: int)

  datatype HopLeaf = HopLeaf(owner: int, orderNonce: int, hopIndex: nat, amountOut: int, poolId: nat)

  function FillLeaf(h: Hash, f: FillEntry): int {
    h([f.orderNonce, f.amountOut])
  }

  function HopFillLeaf(h: Hash, f: HopLeaf): int {
    h([f.owner, f.orderNonce, f.hopIndex, f.amountOut, f.poolId])
  }

  const EMPTY_FILL: FillEntry := FillEntry(0, 0)
  const EMPTY_HOP: HopLeaf := HopLeaf(0, 0, 0, 0, 0)

  /** The entry in slot i, padded with the sentinel. */
  function EntryAt<T>(fills: seq<T>, empty: T, i: nat): T {
    if i < |fills| then fills[i] else empty
  }

  function Leaves<T>(leaf: T -> int, fills: seq<T>, empty: T, n: nat): (r: seq<int>)
    ensures |r| == n
  {
    seq(n, i requires 0 <= i < n => leaf(EntryAt(fills, empty, i)))
  }

  function HopLeaves(h: Hash, fills: seq<HopLeaf>, n: nat): (r: seq<int>)
    ensures |r| == n
  {
    seq(n, i requires 0 <= i < n => HopFillLeaf(h, EntryAt(fills, EMPTY_HOP, i)))
  }

  function FillLeaves(h: Hash, fills: seq<FillEntry>, n: nat): (r: seq<int>)
    ensures |r| == n
  {
    seq(n, i requires 0 <= i < n => FillLeaf(h, EntryAt(fills, EMPTY_FILL, i)))
  }

  datatype Proof = Proof(siblings: seq<int>, leafIndex: nat)

  datatype Tree<K> = Tree(root: int, leaves: seq<int>, paths: map<K, Proof>)

  // --------------------------------------------------------- power-of-two test

  /** Bitwise and on naturals. */
  function BitAnd(a: nat, b: nat): nat
    decreases a
  {
    if a == 0 || b == 0 then 0 else 2 * BitAnd(a / 2, b / 2) + (a % 2) * (b % 2)
  }

  predicate IsPow2(n: nat) {
    n == 1 || (n > 1 && n % 2 == 0 && IsPow2(n / 2))
  }

  lemma {:induction false} BitAndSelf(a: nat)
    ensures BitAnd(a, a) == a
  {
    if a > 0 {
      BitAndSelf(a / 2);
    }
  }

  /** `n & (n - 1)` is zero exactly for the powers of two (and zero). */
  lemma {:induction false} PowerOfTwoTest(n: nat)
    requires n > 0
    ensures BitAnd(n, n - 1) == 0 <==> IsPow2(n)
  {
    if n > 1 {
      if n % 2 == 0 {
        PowerOfTwoTest(n / 2);
        assert (n - 1) / 2 == n / 2 - 1;
      } else {
        BitAndSelf(n / 2);
        assert (n - 1) / 2 == n / 2;
      }
    }
  }

  function Log2(n: nat): (k: nat)
    requires IsPow2(n)
    ensures Pow2(k) == n
  {
    if n == 1 then 0 else 1 + Log2(n / 2)
  }

  // --------------------------------------------------------------- the loops

  method HashLevel(h: Hash, prev: seq<int>) returns (next: seq<int>)
    requires |prev| % 2 == 0
    ensures next == Above(h, prev)
  {
    next := [];
    var i := 0;
    while i < |prev|
      invariant 0 <= i <= |prev| && i % 2 == 0 && |next| == i / 2
      invariant next == Above(h, prev)[..|next|]
    {
      next := next + [Pair(h, prev[i], prev[i + 1])];
      i := i + 2;
    }
  }

  method MerkleRoot32(h: Hash, leaves: seq<int>) returns (r: Result<int>)
    ensures |leaves| != TREE_LEAVES ==> r == Err(BadTreeShape)
    ensures |leaves| == TREE_LEAVES ==> Pow2(TREE_DEPTH) == TREE_LEAVES && r == Ok(Root(h, leaves, TREE_DEPTH))
  {
    if |leaves| != TREE_LEAVES {
      return Err(BadTreeShape);
    }
    ThirtyTwo();
    var level := leaves;
    for round := 0 to TREE_DEPTH
      invariant level == Level(h, leaves, TREE_DEPTH, round)
    {
      Halves(TREE_DEPTH - round);
      level := HashLevel(h, level);
    }
    return Ok(level[0]);
  }

  lemma ThirtyTwo()
    ensures Pow2(TREE_DEPTH) == TREE_LEAVES
  {
    assert Pow2(1) == 2 && Pow2(2) == 4 && Pow2(3) == 8 && Pow2(4) == 16;
  }

  /** All levels, from the leaves to the root. */
  method BuildLevels(h: Hash, leaves: seq<int>, ghost k: nat) returns (levels: seq<seq<int>>)
    requires |leaves| == Pow2(k)
    ensures |levels| == k + 1 && forall r :: 0 <= r <= k ==> levels[r] == Level(h, leaves, k, r)
  {
    hide Level, Above, Pow2;
    levels := [leaves];
    LevelZero(h, leaves, k);
    while |levels[|levels| - 1]| > 1
      invariant 0 < |levels| <= k + 1
      invariant forall r :: 0 <= r < |levels| ==> levels[r] == Level(h, leaves, k, r)
      decreases k + 1 - |levels|
    {
      ghost var r := |levels| - 1;
      TopLevel(k);
      LevelStep(h, leaves, k, r);
      var next := HashLevel(h, levels[|levels| - 1]);
      levels := levels + [next];
    }
    OnlyOne(k - (|levels| - 1));
  }

  lemma LevelZero(h: Hash, leaves: seq<int>, k: nat)
    requires |leaves| == Pow2(k)
    ensures Level(h, leaves, k, 0) == leaves
  {}

  lemma LevelStep(h: Hash, leaves: seq<int>, k: nat, r: nat)
    requires |leaves| == Pow2(k) && r < k
    ensures |Level(h, leaves, k, r)| % 2 == 0
    ensures Level(h, leaves, k, r + 1) == Above(h, Level(h, leaves, k, r))
  {
    hide Above;
    Halves(k - r);
  }

  lemma TopLevel(k: nat)
    ensures Pow2(0) == 1
  {}

  lemma OnlyOne(m: nat)
    ensures Pow2(m) <= 1 ==> m == 0
  {}

  method HarvestPath(h: Hash, levels: seq<seq<int>>, i: nat, ghost leaves: seq<int>, ghost k: nat)
    returns (siblings: seq<int>)
    requires |leaves| == Pow2(k) && i < Pow2(k) && |levels| == k + 1
    requires forall r :: 0 <= r <= k ==> levels[r] == Level(h, leaves, k, r)
    ensures siblings == Harvest(h, leaves, k, 0, i)
  {
    hide Level, Pow2;
    var idx: nat := i;
    siblings := [];
    for r := 0 to |levels| - 1
      invariant idx < Pow2(k - r)
      invariant siblings + Harvest(h, leaves, k, r, idx) == Harvest(h, leaves, k, 0, i)
    {
      Halves(k - r);
      siblings := siblings + [levels[r][Sibling(idx)]];
      idx := idx / 2;
    }
    assert siblings + [] == siblings;
  }

  ghost predicate ProvenAt<K>(h: Hash, paths: map<K, Proof>, key: K, leaves: seq<int>, k: nat, i: nat)
    requires |leaves| == Pow2(k) && i < Pow2(k)
  {
    key in paths && paths[key] == Proof(Harvest(h, leaves, k, 0, i), i)
  }

  function NonceKey(f: FillEntry): int { f.orderNonce }

  function HopKey(f: HopLeaf): (int, nat) { (f.orderNonce, f.hopIndex) }

  ghost predicate DistinctKeys<T, K>(fills: seq<T>, key: T -> K) {
    forall i, j :: 0 <= i < j < |fills| ==> key(fills[i]) != key(fills[j])
  }

  method HasDuplicate<T, K(==)>(fills: seq<T>, key: T -> K) returns (dup: bool)
    ensures dup <==> !DistinctKeys(fills, key)
  {
    var seen: set<K> := {};
    for i := 0 to |fills|
      invariant DistinctKeys(fills[..i], key)
      invariant seen == set j | 0 <= j < i :: key(fills[j])
    {
      if key(fills[i]) in seen {
        return true;
      }
      seen := seen + {key(fills[i])};
    }
    assert fills[..|fills|] == fills;
    return false;
  }

  method HashLeaves<T>(leaf: T -> int, fills: seq<T>, empty: T, n: nat) returns (leaves: seq<int>)
    ensures leaves == Leaves(leaf, fills, empty, n)
  {
    leaves := [];
    for i := 0 to n
      invariant leaves == Leaves(leaf, fills, empty, i)
    {
      leaves := leaves + [leaf(EntryAt(fills, empty, i))];
    }
  }

  /** Levels and one harvested path per populated slot. */
  method BuildTree<T, K>(h: Hash, leaf: T -> int, fills: seq<T>, empty: T, key: T -> K, n: nat, ghost k: nat)
    returns (t: Tree<K>)
    requires n == Pow2(k) && |fills| <= n && DistinctKeys(fills, key)
    ensures t.leaves == Leaves(leaf, fills, empty, n)
    ensures t.root == Root(h, t.leaves, k)
    ensures forall i :: 0 <= i < |fills| ==> ProvenAt(h, t.paths, key(fills[i]), t.leaves, k, i)
  {
    hide Level, Harvest, Pow2, Leaves;
    var leaves := HashLeaves(leaf, fills, empty, n);
    var levels := BuildLevels(h, leaves, k);
    var paths: map<K, Proof> := map[];
    for i := 0 to |fills|
      invariant forall j :: 0 <= j < i ==> ProvenAt(h, paths, key(fills[j]), leaves, k, j)
    {
      var siblings := HarvestPath(h, levels, i, leaves, k);
      paths := paths[key(fills[i]) := Proof(siblings, i)];
    }
    TopLevel(k);
    return Tree(levels[|levels| - 1][0], leaves, paths);
  }

  method BuildFillsTree(h: Hash, fills: seq<FillEntry>) returns (r: Result<Tree<int>>)
    ensures |fills| > TREE_LEAVES ==> r == Err(TooManyFills)
    ensures |fills| <= TREE_LEAVES ==>
      (r.Ok? <==> DistinctKeys(fills, NonceKey) && forall f :: f in fills ==> f.orderNonce != 0)
    ensures r.Ok? ==>
      && |r.value.leaves| == Pow2(TREE_DEPTH)
      && r.value.leaves == FillLeaves(h, fills, TREE_LEAVES)
      && r.value.root == Root(h, r.value.leaves, TREE_DEPTH)
      && forall i :: 0 <= i < |fills| ==> ProvenAt(h, r.value.paths, fills[i].orderNonce, r.value.leaves, TREE_DEPTH, i)
  {
    hide Pow2, Root, ProvenAt;
    if |fills| > TREE_LEAVES {
      return Err(TooManyFills);
    }
    for i := 0 to |fills|
      invariant forall j :: 0 <= j < i ==> fills[j].orderNonce != 0
    {
      if fills[i].orderNonce == 0 {
        return Err(SentinelNonce);
      }
    }
    var dup := HasDuplicate(fills, NonceKey);
    if dup {
      return Err(DuplicateFill);
    }
    ThirtyTwo();
    var t := BuildTree(h, f => FillLeaf(h, f), fills, EMPTY_FILL, NonceKey, TREE_LEAVES, TREE_DEPTH);
    return Ok(t);
  }

  /** Depth 0 passes the guards with no fills: no leaves, no paths, and a root that is undefined. */
  method BuildHopFillsTree(h: Hash, fills: seq<HopLeaf>, depth: nat) returns (r: Result<Option<Tree<(int, nat)>>>)
    ensures depth == 0 ==> r == if |fills| == 0 then Ok(None) else Err(TooManyFills)
    ensures depth > 0 ==> (r.Ok? <==> IsPow2(depth) && |fills| <= depth && DistinctKeys(fills, HopKey))
    ensures depth > 0 && r.Ok? ==>
      && r.value.Some?
      && var t := r.value.value;
         && |t.leaves| == Pow2(Log2(depth))
         && t.leaves == HopLeaves(h, fills, depth)
         && t.root == Root(h, t.leaves, Log2(depth))
         && forall i :: 0 <= i < |fills| ==>
              ProvenAt(h, t.paths, HopKey(fills[i]), t.leaves, Log2(depth), i)
  {
    if depth > 0 {
      PowerOfTwoTest(depth);
      if BitAnd(depth, depth - 1) != 0 {
        return Err(BadTreeShape);
      }
    }
    if |fills| > depth {
      return Err(TooManyFills);
    }
    var dup := HasDuplicate(fills, HopKey);
    if dup {
      return Err(DuplicateFill);
    }
    if depth == 0 {
      return Ok(None);
    }
    var t := BuildTree(h, f => HopFillLeaf(h, f), fills, EMPTY_HOP, HopKey, depth, Log2(depth));
    return Ok(Some(t));
  }

  // ----------------------------------------------------------------- theorems

  lemma AboveAppend(h: Hash, a: seq<int>, b: seq<int>)
    requires |a| % 2 == 0 && |b| % 2 == 0
    ensures |a + b| % 2 == 0 && Above(h, a + b) == Above(h, a) + Above(h, b)
  {
    forall i | 0 <= i < |a + b| / 2
      ensures Above(h, a + b)[i] == (Above(h, a) + Above(h, b))[i]
    {
      if i >= |a| / 2 {
        assert (a + b)[2 * i] == b[2 * (i - |a| / 2)];
        assert (a + b)[2 * i + 1] == b[2 * (i - |a| / 2) + 1];
      }
    }
  }

  /** Hashing one level does not change the reference root. */
  lemma {:induction false} RootAbove(h: Hash, leaves: seq<int>, k: nat)
    requires k > 0 && |leaves| == Pow2(k)
    ensures |leaves| % 2 == 0 && |Above(h, leaves)| == Pow2(k - 1)
    ensures TreeRoot(h, Above(h, leaves), k - 1) == TreeRoot(h, leaves, k)
    decreases k
  {
    hide Above, Pair;
    Halves(k);
    if k > 1 {
      Halves(k - 1);
      var n := Pow2(k - 1);
      var left, right := leaves[..n], leaves[n..];
      assert leaves == left + right;
      AboveAppend(h, left, right);
      RootAbove(h, left, k - 1);
      RootAbove(h, right, k - 1);
      JoinHalves(h, Above(h, left), Above(h, right), k - 1);
    } else {
      SingleRoots(h, leaves);
    }
  }

  lemma JoinHalves(h: Hash, left: seq<int>, right: seq<int>, k: nat)
    requires k > 0 && |left| == |right| == Pow2(k - 1)
    ensures |left + right| == Pow2(k)
    ensures TreeRoot(h, left + right, k) == Pair(h, TreeRoot(h, left, k - 1), TreeRoot(h, right, k - 1))
  {
    assert (left + right)[..Pow2(k - 1)] == left && (left + right)[Pow2(k - 1)..] == right;
  }

  lemma SingleRoots(h: Hash, leaves: seq<int>)
    requires |leaves| == Pow2(1)
    ensures |leaves| == 2 && TreeRoot(h, Above(h, leaves), 0) == TreeRoot(h, leaves, 1)
  {
    assert Pow2(0) == 1;
    assert leaves[..1][0] == leaves[0] && leaves[1..][0] == leaves[1];
  }

  /** Level by level or half by half, the root is the same. */
  lemma LevelsGiveTreeRoot(h: Hash, leaves: seq<int>, k: nat)
    requires |leaves| == Pow2(k)
    ensures Root(h, leaves, k) == TreeRoot(h, leaves, k)
  {
    LevelRoot(h, leaves, k, k);
  }

  lemma {:induction false} LevelRoot(h: Hash, leaves: seq<int>, k: nat, r: nat)
    requires |leaves| == Pow2(k) && r <= k
    ensures TreeRoot(h, Level(h, leaves, k, r), k - r) == TreeRoot(h, leaves, k)
    decreases r
  {
    hide Level, Above, Pow2, TreeRoot, Pair;
    if r > 0 {
      LevelRoot(h, leaves, k, r - 1);
      LevelStep(h, leaves, k, r - 1);
      RootAbove(h, Level(h, leaves, k, r - 1), k - r + 1);
    } else {
      LevelZero(h, leaves, k);
    }
  }

  /** Every harvested path folds to the root. */
  lemma {:induction false} HarvestedPathFolds(h: Hash, leaves: seq<int>, k: nat, r: nat, idx: nat)
    requires |leaves| == Pow2(k) && r <= k && idx < Pow2(k - r)
    ensures |Harvest(h, leaves, k, r, idx)| == k - r
    ensures FoldPath(h, Level(h, leaves, k, r)[idx], idx, Harvest(h, leaves, k, r, idx)) == Root(h, leaves, k)
    decreases k - r
  {
    hide Level, Above, Pow2, Pair;
    if r < k {
      Halves(k - r);
      HarvestedPathFolds(h, leaves, k, r + 1, idx / 2);
      LevelStep(h, leaves, k, r);
      AboveAt(h, Level(h, leaves, k, r), idx / 2);
      var path := Harvest(h, leaves, k, r, idx);
      assert path[1..] == Harvest(h, leaves, k, r + 1, idx / 2);
    } else {
      TopLevel(k);
    }
  }

  lemma AboveAt(h: Hash, level: seq<int>, j: nat)
    requires |level| % 2 == 0 && j < |level| / 2
    ensures Above(h, level)[j] == Pair(h, level[2 * j], level[2 * j + 1])
  {}

  /** A path of the right length that folds to the root proves the leaf at its index, and is the harvested one. */
  lemma {:induction false} PathBinds(h: Hash, leaves: seq<int>, k: nat, r: nat, x: int, idx: nat, path: seq<int>)
    requires Injective(h) && |leaves| == Pow2(k) && r <= k && idx < Pow2(k - r) && |path| == k - r
    requires FoldPath(h, x, idx, path) == Root(h, leaves, k)
    ensures x == Level(h, leaves, k, r)[idx] && path == Harvest(h, leaves, k, r, idx)
    decreases k - r
  {
    hide Level, Above, Pow2, Pair, Injective;
    if r < k {
      Halves(k - r);
      var level := Level(h, leaves, k, r);
      var j := idx / 2;
      var a, b := if idx % 2 == 0 then x else path[0], if idx % 2 == 0 then path[0] else x;
      PathBinds(h, leaves, k, r + 1, Pair(h, a, b), j, path[1..]);
      LevelStep(h, leaves, k, r);
      AboveAt(h, level, j);
      PairBinds(h, a, b, level[2 * j], level[2 * j + 1]);
      assert path == [path[0]] + path[1..];
    } else {
      TopLevel(k);
    }
  }

  lemma PairBinds(h: Hash, a: int, b: int, c: int, d: int)
    requires Injective(h) && Pair(h, a, b) == Pair(h, c, d)
    ensures a == c && b == d
  {
    assert [a, b][0] == [c, d][0] && [a, b][1] == [c, d][1];
  }

  lemma HopLeafBinds(h: Hash, a: HopLeaf, b: HopLeaf)
    requires Injective(h) && HopFillLeaf(h, a) == HopFillLeaf(h, b)
    ensures a == b
  {
    var x := [a.owner, a.orderNonce, a.hopIndex, a.amountOut, a.poolId];
    var y := [b.owner, b.orderNonce, b.hopIndex, b.amountOut, b.poolId];
    assert x == y;
    assert x[0] == y[0] && x[1] == y[1] && x[2] == y[2] && x[3] == y[3] && x[4] == y[4];
  }

  /**
   A claim proves exactly one emitted fill. For a tree of depth k over these fills:
   every fill has a path that verifies, and any claim (owner, nonce, hop, amount,
   pool) that verifies at an index is the entry in that slot, so a claim other than
   the empty sentinel is an emitted fill, owner and amount included.
   */
  lemma ClaimsAreEmittedFills(h: Hash, fills: seq<HopLeaf>, k: nat, claim: HopLeaf, idx: nat, path: seq<int>)
    requires Injective(h) && |fills| <= Pow2(k) && idx < Pow2(k) && |path| == k
    ensures
      var leaves := HopLeaves(h, fills, Pow2(k));
      && (idx < |fills| ==>
            FoldPath(h, HopFillLeaf(h, fills[idx]), idx, Harvest(h, leaves, k, 0, idx)) == Root(h, leaves, k))
      && (FoldPath(h, HopFillLeaf(h, claim), idx, path) == Root(h, leaves, k) ==>
            claim == EntryAt(fills, EMPTY_HOP, idx) && (claim != EMPTY_HOP ==> claim in fills))
  {
    hide HopFillLeaf, FoldPath, Harvest, Root, Pow2, Injective, Level;
    var leaves := HopLeaves(h, fills, Pow2(k));
    LevelZero(h, leaves, k);
    HarvestedPathFolds(h, leaves, k, 0, idx);
    if FoldPath(h, HopFillLeaf(h, claim), idx, path) == Root(h, leaves, k) {
      PathBinds(h, leaves, k, 0, HopFillLeaf(h, claim), idx, path);
      HopLeafBinds(h, claim, EntryAt(fills, EMPTY_HOP, idx));
    }
  }
}
