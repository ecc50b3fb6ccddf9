/**
 The other two parties to the accumulator: the orderbook contract, which folds a
 commitment per submission, and the clearing circuit, which replays the fold over its
 fixed slots. Both commit to an order field by field; the aggregator's replay is held
 against them.
 */
module OnChain {
  import opened FixedPoint
  import opened Sequences
  import opened Reveals
  import opened Merkle
  import opened Cycle
  import opened Arrival

  /** An order as the circuit is given it. */
  datatype Preimage = Preimage(
    side: bool, amountIn: int, limitPrice: int, orderNonce: int, submittedAtBlock: int,
    owner: int, pathLen: nat, path: seq<int>)

  const NO_ORDER: Preimage := Preimage(false, 0, 0, 0, 0, 0, 0, [0, 0, 0])

  /** The commitment of the circuit and the contract: ten words in this order. */
  function CommitmentOf(h: Hash, o: Preimage): int
    requires |o.path| == 3
  {
    h([o.owner, if o.side then 1 else 0] + [o.amountIn, o.limitPrice] + [o.orderNonce, o.submittedAtBlock]
      + [o.pathLen] + o.path)
  }

  /** A reveal as the prover hands it to the circuit. */
  function PreimageOf(r: Reveal): Preimage {
    Preimage(r.side, r.amountIn, r.limitPrice, r.orderNonce, r.submittedAtBlock, r.owner, r.pathLen,
             [r.path.0, r.path.1, r.path.2])
  }

  /** The aggregator's commitment is the chain's. */
  lemma CommitmentsAgree(h: Hash, r: Reveal)
    ensures Ci(h, r) == CommitmentOf(h, PreimageOf(r))
  {
    var o := PreimageOf(r);
    assert [o.owner, if o.side then 1 else 0] + [o.amountIn, o.limitPrice] + [o.orderNonce, o.submittedAtBlock]
      + [o.pathLen] + o.path
      == [r.owner, if r.side then 1 else 0, r.amountIn, r.limitPrice, r.orderNonce,
          r.submittedAtBlock, r.pathLen, r.path.0, r.path.1, r.path.2];
  }

  /** The circuit's leaf for one fill of the 32-leaf tree: the nonce, then the amount. */
  function CircuitFillLeaf(h: Hash, orderNonce: int, amountOut: int): int {
    h([orderNonce] + [amountOut])
  }

  /** The aggregator's leaf is the circuit's. */
  lemma FillLeavesAgree(h: Hash, f: FillEntry)
    ensures FillLeaf(h, f) == CircuitFillLeaf(h, f.orderNonce, f.amountOut)
  {
    assert [f.orderNonce] + [f.amountOut] == [f.orderNonce, f.amountOut];
  }

  // --------------------------------------------------------------- the contract

  class Orderbook {
    var orderAcc: int
    var orderCount: nat

    constructor ()
      ensures orderAcc == 0 && orderCount == 0
    {
      orderAcc, orderCount := 0, 0;
    }

    /** One submission's callback; it reverts when the epoch is full. */
    method AppendOrder(h: Hash, ci: int) returns (accepted: bool)
      modifies this
      ensures accepted <==> old(orderCount) < MAX_ORDERS_PER_EPOCH
      ensures orderAcc == if accepted then h([old(orderAcc), ci]) else old(orderAcc)
      ensures orderCount == if accepted then old(orderCount) + 1 else old(orderCount)
    {
      accepted := orderCount < MAX_ORDERS_PER_EPOCH;
      if accepted {
        orderAcc := h([orderAcc, ci]);
        orderCount := orderCount + 1;
      }
    }

    /** An epoch's submissions, one callback each. */
    method SubmitAll(h: Hash, submitted: seq<Reveal>)
      requires orderAcc == 0 && orderCount == 0 && |submitted| <= MAX_ORDERS_PER_EPOCH
      modifies this
      ensures orderCount == |submitted| && orderAcc == OrderAcc(h, Cis(h, submitted))
    {
      hide CommitmentOf;
      for i := 0 to |submitted|
        invariant orderCount == i && orderAcc == OrderAcc(h, Cis(h, submitted[..i]))
      {
        assert Cis(h, submitted[..i + 1])[..i] == Cis(h, submitted[..i]);
        CommitmentsAgree(h, submitted[i]);
        var accepted := AppendOrder(h, CommitmentOf(h, PreimageOf(submitted[i])));
      }
      assert submitted[..|submitted|] == submitted;
    }
  }

  // ---------------------------------------------------------------- the circuit

  ghost predicate Slots(slots: seq<Preimage>) {
    |slots| == MAX_ORDERS_PER_EPOCH && forall i :: 0 <= i < |slots| ==> |slots[i].path| == 3
  }

  /** The orders in the circuit's slots, padded. */
  function Padded(vs: seq<Reveal>): (r: seq<Preimage>)
    ensures |r| == MAX_ORDERS_PER_EPOCH && Slots(r)
    ensures forall i :: 0 <= i < |vs| && i < |r| ==> r[i] == PreimageOf(vs[i])
  {
    seq(MAX_ORDERS_PER_EPOCH, i requires 0 <= i < MAX_ORDERS_PER_EPOCH =>
      if i < |vs| then PreimageOf(vs[i]) else NO_ORDER)
  }

  /** The fold of the slots in use. */
  function Replayed(h: Hash, slots: seq<Preimage>, used: nat): int
    requires Slots(slots) && used <= MAX_ORDERS_PER_EPOCH
  {
    if used == 0 then 0 else h([Replayed(h, slots, used - 1), CommitmentOf(h, slots[used - 1])])
  }

  /** The circuit visits every slot and folds those in use. */
  method ReplayChainWithPath(h: Hash, slots: seq<Preimage>, orderCount: nat) returns (acc: int)
    requires Slots(slots) && orderCount <= MAX_ORDERS_PER_EPOCH
    ensures acc == Replayed(h, slots, orderCount)
  {
    hide CommitmentOf;
    acc := 0;
    for i := 0 to MAX_ORDERS_PER_EPOCH
      invariant acc == Replayed(h, slots, if i < orderCount then i else orderCount)
    {
      if i < orderCount {
        acc := h([acc, CommitmentOf(h, slots[i])]);
      }
    }
  }

  /** The circuit replays what the aggregator folds. */
  lemma {:induction false} CircuitAgrees(h: Hash, vs: seq<Reveal>, used: nat)
    requires used <= |vs| <= MAX_ORDERS_PER_EPOCH
    ensures Replayed(h, Padded(vs), used) == OrderAcc(h, Cis(h, vs[..used]))
  {
    hide CommitmentOf, Ci;
    if used > 0 {
      CircuitAgrees(h, vs, used - 1);
      CommitmentsAgree(h, vs[used - 1]);
      assert Cis(h, vs[..used])[..used - 1] == Cis(h, vs[..used - 1]);
    }
  }

  // ------------------------------------------------------------- the three agree

  /** Whatever the aggregator accepts passes the circuit's binding to the accumulator. */
  lemma SettledOrdersBind(w: World, epoch: EpochInfo, payloads: seq<Payload>)
    requires 0 < |Accepted(w, epoch, payloads)| <= MAX_ORDERS_PER_EPOCH
    ensures
      var vs := Accepted(w, epoch, payloads);
      Replayed(w.h, Padded(vs), |vs|) == epoch.orderAcc
  {
    hide OrderAcc, Cis, Parsed, Padded, Replayed, Sort;
    var vs := Accepted(w, epoch, payloads);
    CircuitAgrees(w.h, vs, |vs|);
    assert vs[..|vs|] == vs;
    AcceptedFolds(w, epoch, payloads);
  }

  lemma AcceptedFolds(w: World, epoch: EpochInfo, payloads: seq<Payload>)
    requires |Accepted(w, epoch, payloads)| > 0
    ensures OrderAcc(w.h, Cis(w.h, Accepted(w, epoch, payloads))) == epoch.orderAcc
  {
    hide OrderAcc, Cis, Parsed, Repair, Sort;
    if 0 < |payloads| <= REPAIR_MAX_ORDERS {
      RepairIsSoundAndComplete(w.h, w.codec, payloads, epoch.orderAcc, REPAIR_MAX_OFFSET, REPAIR_MAX_ORDERS);
    } else {
      OutOfReach(w.h, w.codec, payloads, epoch.orderAcc, REPAIR_MAX_OFFSET, REPAIR_MAX_ORDERS);
    }
  }

  lemma CorrectedInOrder(rs: seq<Reveal>, offsets: seq<nat>, committed: seq<Reveal>)
    requires |offsets| == |rs| && Corrected(rs, offsets) == committed && DistinctBy(committed, RevealNonce)
    ensures InOrder(committed)
  {
    CanonicalIsTotal();
    SortSorted(Shift(rs, offsets), Canonical);
    forall i, j | 0 <= i < j < |committed|
      ensures committed[i].submittedAtBlock < committed[j].submittedAtBlock
              || (committed[i].submittedAtBlock == committed[j].submittedAtBlock
                  && committed[i].orderNonce < committed[j].orderNonce)
    {
      assert RevealNonce(committed[i]) != RevealNonce(committed[j]);
    }
  }

  lemma SortedInOrder(rs: seq<Reveal>, committed: seq<Reveal>)
    requires Sort(rs, Canonical) == committed && DistinctBy(committed, RevealNonce)
    ensures InOrder(committed)
  {
    CanonicalIsTotal();
    SortSorted(rs, Canonical);
    forall i, j | 0 <= i < j < |committed|
      ensures committed[i].submittedAtBlock < committed[j].submittedAtBlock
              || (committed[i].submittedAtBlock == committed[j].submittedAtBlock
                  && committed[i].orderNonce < committed[j].orderNonce)
    {
      assert RevealNonce(committed[i]) != RevealNonce(committed[j]);
    }
  }

  /**
   The contract folds submissions as they execute, under the block each was proved
   against and a random nonce; the aggregator replays them by block and nonce. So with
   every submission honestly revealed, the epoch is accepted exactly when the two orders
   are one: no drift can stand in for it.
   */
  lemma HonestEpochAcceptedExactly(w: World, epoch: EpochInfo, payloads: seq<Payload>, honest: seq<Payload>,
                                   submitted: seq<Reveal>)
    requires Injective(w.h) && NeverZero(w.h) && epoch.orderAcc == OrderAcc(w.h, Cis(w.h, submitted))
    requires epoch.orderCount == |submitted| > 0 && DistinctBy(submitted, RevealNonce)
    requires |honest| == |submitted| && forall i :: 0 <= i < |honest| ==> ReadsAs(w.codec, honest[i], submitted[i])
    requires multiset(payloads) == multiset(honest)
    ensures Accepted(w, epoch, payloads) == if InOrder(submitted) then submitted else []
  {
    hide Injective, NeverZero, OrderAcc, Cis, ReadsAs, Parsed, Accepted, InOrder, Sort, Corrected;
    var rs := Parsed(w.codec, payloads);
    ParsedOf(w.codec, honest, submitted);
    ParsedPermutes(w.codec, payloads, honest);
    AcceptedExactly(w, epoch, payloads, submitted);
    if InOrder(submitted) {
      CommittedStays(submitted);
      CanonicalOrderUnique(submitted, rs);
    } else {
      if Sort(rs, Canonical) == submitted {
        SortedInOrder(rs, submitted);
      }
      forall offsets | InBox(offsets, |rs|, 3)
        ensures Corrected(rs, offsets) != submitted
      {
        if Corrected(rs, offsets) == submitted {
          CorrectedInOrder(rs, offsets, submitted);
        }
      }
    }
  }

  /** Two submissions of one block that executed against the order of their nonces: the epoch is lost. */
  lemma SameBlockCanFail(w: World, epoch: EpochInfo, first: Payload, second: Payload, a: Reveal, b: Reveal)
    requires Injective(w.h) && NeverZero(w.h) && epoch.orderAcc == OrderAcc(w.h, Cis(w.h, [a, b]))
    requires epoch.orderCount == 2 && ReadsAs(w.codec, first, a) && ReadsAs(w.codec, second, b)
    requires a.submittedAtBlock == b.submittedAtBlock && a.orderNonce > b.orderNonce
    ensures Accepted(w, epoch, [first, second]) == [] && Accepted(w, epoch, [second, first]) == []
    ensures Plan(w, epoch, [first, second]) == Ok(ReplayMismatch)
  {
    hide Injective, NeverZero, OrderAcc, Cis, ReadsAs, Accepted;
    assert RevealNonce(a) != RevealNonce(b);
    assert !InOrder([a, b]) by {
      assert [a, b][0] == a && [a, b][1] == b;
    }
    HonestEpochAcceptedExactly(w, epoch, [first, second], [first, second], [a, b]);
    HonestEpochAcceptedExactly(w, epoch, [second, first], [first, second], [a, b]);
  }
}
