/**
 The contract's side of a settled epoch: claims against the submitted root. Whoever
 claims whatever in whatever order, each fill is paid at most once, to its owner, and
 the claims together never exceed the fills.
 */
module Claims {
  import opened Sequences
  import opened Arithmetic
  import opened Reveals
  import opened Merkle
  import opened Cycle

  const HOPS: nat := 2

  /** One call: who claims, what, where in the tree, and whether the caller holds a note under that nonce. */
  datatype Claim = Claim(
    maker: int, orderNonce: int, hopIndex: nat, amountOut: nat, poolId: nat, leafIndex: nat, path: seq<int>,
    holdsNote: bool)

  /** The leaf the contract rebuilds from the caller and its arguments. */
  function ClaimedLeaf(h: Hash, c: Claim): int {
    h([c.maker] + [c.orderNonce, c.hopIndex] + [c.amountOut, c.poolId])
  }

  lemma LeavesAgree(h: Hash, c: Claim)
    ensures ClaimedLeaf(h, c) == HopFillLeaf(h, HopLeaf(c.maker, c.orderNonce, c.hopIndex, c.amountOut, c.poolId))
  {
    assert [c.maker] + [c.orderNonce, c.hopIndex] + [c.amountOut, c.poolId]
      == [c.maker, c.orderNonce, c.hopIndex, c.amountOut, c.poolId];
  }

  /** The contract's walk up the tree, by the index's low bits. */
  method VerifyMerkleProof64(h: Hash, leaf: int, leafIndex: nat, siblings: seq<int>) returns (current: int)
    requires |siblings| == CLAIM_DEPTH
    ensures current == FoldPath(h, leaf, leafIndex, siblings)
  {
    current := leaf;
    var idx: nat := leafIndex;
    for i := 0 to CLAIM_DEPTH
      invariant FoldPath(h, current, idx, siblings[i..]) == FoldPath(h, leaf, leafIndex, siblings)
    {
      assert siblings[i..][0] == siblings[i] && siblings[i..][1..] == siblings[i + 1..];
      var isRight := idx % 2 == 1;
      current := if isRight then h([siblings[i], current]) else h([current, siblings[i]]);
      idx := idx / 2;
    }
    assert siblings[CLAIM_DEPTH..] == [];
  }

  /** The root stored for an epoch and the leaf slots already paid. */
  datatype Book = Book(root: int, paid: set<nat>)

  predicate Pays(h: Hash, b: Book, c: Claim) {
    && c.hopIndex < HOPS && c.leafIndex < CLAIM_LEAVES && |c.path| == CLAIM_DEPTH
    && b.root != 0 && FoldPath(h, ClaimedLeaf(h, c), c.leafIndex, c.path) == b.root
    && c.leafIndex !in b.paid && c.holdsNote
  }

  function After(h: Hash, b: Book, c: Claim): Book {
    if Pays(h, b, c) then Book(b.root, b.paid + {c.leafIndex}) else b
  }

  class ClaimBook {
    var root: int
    var paid: set<nat>

    function Value(): Book
      reads this
    {
      Book(root, paid)
    }

    constructor (root: int)
      ensures Value() == Book(root, {})
    {
      this.root, paid := root, {};
    }

    /** A claim that fails any check reverts and changes nothing. */
    method ClaimFill(h: Hash, c: Claim) returns (amount: nat)
      requires |c.path| == CLAIM_DEPTH
      modifies this
      ensures Value() == After(h, old(Value()), c)
      ensures amount == if Pays(h, old(Value()), c) then c.amountOut else 0
    {
      if c.hopIndex >= HOPS || c.leafIndex >= CLAIM_LEAVES {
        return 0;
      }
      var computed := VerifyMerkleProof64(h, ClaimedLeaf(h, c), c.leafIndex, c.path);
      if root == 0 || computed != root || c.leafIndex in paid || !c.holdsNote {
        return 0;
      }
      paid := paid + {c.leafIndex};
      return c.amountOut;
    }
  }

  // -------------------------------------------------------------- any run of claims

  function Run(h: Hash, b: Book, claims: seq<Claim>): Book {
    if |claims| == 0 then b else After(h, Run(h, b, claims[..|claims| - 1]), claims[|claims| - 1])
  }

  /** What a run pays out in all. */
  function PaidOut(h: Hash, b: Book, claims: seq<Claim>): int {
    if |claims| == 0 then 0
    else
      var init, last := claims[..|claims| - 1], claims[|claims| - 1];
      PaidOut(h, b, init) + if Pays(h, Run(h, b, init), last) then last.amountOut else 0
  }

  function LeafAmount(f: HopLeaf): int { f.amountOut }

  /** The amount in a slot that has been paid; an unpaid or empty slot counts nothing. */
  function PaidAmounts(fills: seq<HopLeaf>, paid: set<nat>): int {
    if |fills| == 0 then 0
    else
      var n := |fills| - 1;
      PaidAmounts(fills[..n], paid) + if n in paid then fills[n].amountOut else 0
  }

  lemma {:induction false} OneMorePaid(fills: seq<HopLeaf>, paid: set<nat>, slot: nat)
    requires slot !in paid
    ensures PaidAmounts(fills, paid + {slot})
         == PaidAmounts(fills, paid) + if slot < |fills| then fills[slot].amountOut else 0
  {
    if |fills| > 0 {
      OneMorePaid(fills[..|fills| - 1], paid, slot);
    }
  }

  lemma {:induction false} PaidWithin(fills: seq<HopLeaf>, paid: set<nat>)
    requires forall f :: f in fills ==> f.amountOut >= 0
    ensures 0 <= PaidAmounts(fills, paid) <= SumOver(fills, LeafAmount)
  {
    if |fills| > 0 {
      PaidWithin(fills[..|fills| - 1], paid);
      assert fills[|fills| - 1] in fills;
    }
  }

  /** A root over these fills, in the tree the aggregator submits. */
  ghost predicate RootOf(h: Hash, root: int, fills: seq<HopLeaf>) {
    && |fills| <= CLAIM_LEAVES == Pow2(CLAIM_DEPTH)
    && root == Root(h, HopLeaves(h, fills, CLAIM_LEAVES), CLAIM_DEPTH)
  }

  /** A claim that is paid is, owner and amount included, the fill in its slot, or the empty entry worth nothing. */
  lemma PaidClaimIsFill(h: Hash, b: Book, fills: seq<HopLeaf>, c: Claim)
    requires Injective(h) && RootOf(h, b.root, fills) && Pays(h, b, c)
    ensures
      HopLeaf(c.maker, c.orderNonce, c.hopIndex, c.amountOut, c.poolId)
      == if c.leafIndex < |fills| then fills[c.leafIndex] else HopLeaf(0, 0, 0, 0, 0)
  {
    hide FoldPath, Root, HopLeaves, Injective, HopFillLeaf;
    LeavesAgree(h, c);
    ClaimsAreEmittedFills(h, fills, CLAIM_DEPTH,
                          HopLeaf(c.maker, c.orderNonce, c.hopIndex, c.amountOut, c.poolId), c.leafIndex, c.path);
  }

  /**
   Over any run of claims, by anyone, what is paid is exactly what stands in the slots
   that were paid, each once; so the claims together never exceed the fills.
   */
  lemma {:induction false} ClaimsNeverExceedFills(h: Hash, root: int, fills: seq<HopLeaf>, claims: seq<Claim>)
    requires Injective(h) && RootOf(h, root, fills) && forall f :: f in fills ==> f.amountOut >= 0
    ensures Run(h, Book(root, {}), claims).root == root
    ensures PaidOut(h, Book(root, {}), claims) == PaidAmounts(fills, Run(h, Book(root, {}), claims).paid)
    ensures PaidOut(h, Book(root, {}), claims) <= SumOver(fills, LeafAmount)
  {
    hide Pays, RootOf, Injective;
    var start := Book(root, {});
    if |claims| == 0 {
      NothingPaid(fills);
    } else {
      var init, last := claims[..|claims| - 1], claims[|claims| - 1];
      ClaimsNeverExceedFills(h, root, fills, init);
      var mid := Run(h, start, init);
      if Pays(h, mid, last) {
        PaidClaimIsFill(h, mid, fills, last);
        assert last.leafIndex !in mid.paid by {
          OnceOnly(h, mid, last);
        }
        OneMorePaid(fills, mid.paid, last.leafIndex);
      }
    }
    PaidWithin(fills, Run(h, start, claims).paid);
  }

  lemma OnceOnly(h: Hash, b: Book, c: Claim)
    requires Pays(h, b, c)
    ensures c.leafIndex !in b.paid
  {}

  lemma {:induction false} NothingPaid(fills: seq<HopLeaf>)
    ensures PaidAmounts(fills, {}) == 0
  {
    if |fills| > 0 {
      NothingPaid(fills[..|fills| - 1]);
    }
  }

  /** And every fill can be claimed: its owner, holding its note, has a claim that an unpaid slot pays. */
  lemma EveryFillIsClaimable(h: Hash, b: Book, fills: seq<HopLeaf>, slot: nat) returns (c: Claim)
    requires NeverZero(h) && RootOf(h, b.root, fills) && slot < |fills| && slot !in b.paid
    requires fills[slot].hopIndex < HOPS && fills[slot].amountOut >= 0
    ensures Pays(h, b, c) && c.maker == fills[slot].owner && c.amountOut == fills[slot].amountOut
    ensures c.orderNonce == fills[slot].orderNonce && c.leafIndex == slot
  {
    hide FoldPath, Root, HopLeaves, HopFillLeaf, Harvest, NeverZero, ClaimedLeaf;
    var f, leaves := fills[slot], HopLeaves(h, fills, CLAIM_LEAVES);
    var path := Harvest(h, leaves, CLAIM_DEPTH, 0, slot);
    c := Claim(f.owner, f.orderNonce, f.hopIndex, f.amountOut, f.poolId, slot, path, true);
    HarvestedPathFolds(h, leaves, CLAIM_DEPTH, 0, slot);
    LeavesAgree(h, c);
    LeafAt(h, fills, slot, CLAIM_LEAVES);
    LevelZero(h, leaves, CLAIM_DEPTH);
    RootNeverZero(h, leaves);
  }

  lemma LeafAt(h: Hash, fills: seq<HopLeaf>, slot: nat, n: nat)
    requires slot < |fills| <= n
    ensures HopLeaves(h, fills, n)[slot] == HopFillLeaf(h, fills[slot])
  {}

  lemma RootNeverZero(h: Hash, leaves: seq<int>)
    requires NeverZero(h) && |leaves| == Pow2(CLAIM_DEPTH)
    ensures Root(h, leaves, CLAIM_DEPTH) != 0
  {
    hide Level, Pow2;
    LevelStep(h, leaves, CLAIM_DEPTH, CLAIM_DEPTH - 1);
    OnePair();
  }

  lemma OnePair()
    ensures Pow2(0) == 1 && Pow2(1) == 2
  {}
}
