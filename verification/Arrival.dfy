/**
 The order in which reveals arrive does not matter: replay and repair see them sorted,
 and a drift that explains one arrival order explains every other.
 */
module Arrival {
  import opened FixedPoint
  import opened Sequences
  import opened Reveals
  import opened Cycle

  // ---------------------------------------------------------------- multisets

  function Reads(c: Codec, r: Reveal): Payload -> int {
    p => if ParseReveal(c, p) == Some(r) then 1 else 0
  }

  lemma {:induction false} ParsedCount(c: Codec, payloads: seq<Payload>, r: Reveal)
    ensures multiset(Parsed(c, payloads))[r] == SumOver(payloads, Reads(c, r))
  {
    hide ParseReveal;
    if |payloads| > 0 {
      ParsedCount(c, payloads[..|payloads| - 1], r);
    }
  }

  lemma ParsedPermutes(c: Codec, xs: seq<Payload>, ys: seq<Payload>)
    requires multiset(xs) == multiset(ys)
    ensures multiset(Parsed(c, xs)) == multiset(Parsed(c, ys))
  {
    hide Parsed, Reads;
    forall r
      ensures multiset(Parsed(c, xs))[r] == multiset(Parsed(c, ys))[r]
    {
      ParsedCount(c, xs, r);
      ParsedCount(c, ys, r);
      SumPermutation(xs, ys, Reads(c, r));
    }
  }

  /** The offset a reveal is given, looked up by nonce. */
  function OffsetFor(rs: seq<Reveal>, offsets: seq<nat>, nonce: int): (r: nat)
    requires |offsets| == |rs|
    ensures r == 0 || r in offsets
  {
    if |rs| == 0 then 0
    else if rs[|rs| - 1].orderNonce == nonce then offsets[|rs| - 1]
    else OffsetFor(rs[..|rs| - 1], offsets[..|rs| - 1], nonce)
  }

  lemma {:induction false} OffsetForOwn(rs: seq<Reveal>, offsets: seq<nat>, i: nat)
    requires |offsets| == |rs| && i < |rs| && DistinctBy(rs, RevealNonce)
    ensures OffsetFor(rs, offsets, rs[i].orderNonce) == offsets[i]
  {
    if i < |rs| - 1 {
      assert RevealNonce(rs[i]) != RevealNonce(rs[|rs| - 1]);
      OffsetForOwn(rs[..|rs| - 1], offsets[..|rs| - 1], i);
    }
  }

  function MovedBack(r: Reveal, offset: nat): Reveal {
    r.(submittedAtBlock := r.submittedAtBlock - offset)
  }

  /** Counts the reveals that the drift moves to x. */
  function MovesTo(off: int -> nat, x: Reveal): Reveal -> int {
    (r: Reveal) => if MovedBack(r, off(r.orderNonce)) == x then 1 else 0
  }

  ghost predicate Drifts(rs: seq<Reveal>, offsets: seq<nat>, off: int -> nat) {
    |offsets| == |rs| && forall i :: 0 <= i < |rs| ==> offsets[i] == off(rs[i].orderNonce)
  }

  lemma {:induction false} ShiftCount(rs: seq<Reveal>, offsets: seq<nat>, off: int -> nat, x: Reveal)
    requires Drifts(rs, offsets, off)
    ensures multiset(Shift(rs, offsets))[x] == SumOver(rs, MovesTo(off, x))
  {
    hide Shift, MovedBack;
    if |rs| > 0 {
      var n := |rs| - 1;
      ShiftCount(rs[..n], offsets[..n], off, x);
      ShiftSnoc(rs, offsets);
    }
  }

  lemma ShiftSnoc(rs: seq<Reveal>, offsets: seq<nat>)
    requires |rs| == |offsets| > 0
    ensures
      var n := |rs| - 1;
      Shift(rs, offsets) == Shift(rs[..n], offsets[..n]) + [MovedBack(rs[n], offsets[n])]
  {}

  lemma ShiftPermutes(rs: seq<Reveal>, offsets: seq<nat>, ss: seq<Reveal>, moved: seq<nat>, off: int -> nat)
    requires multiset(rs) == multiset(ss) && Drifts(rs, offsets, off) && Drifts(ss, moved, off)
    ensures multiset(Shift(rs, offsets)) == multiset(Shift(ss, moved))
  {
    hide Shift, MovesTo;
    forall x
      ensures multiset(Shift(rs, offsets))[x] == multiset(Shift(ss, moved))[x]
    {
      ShiftCount(rs, offsets, off, x);
      ShiftCount(ss, moved, off, x);
      SumPermutation(rs, ss, MovesTo(off, x));
    }
  }

  // ------------------------------------------------------------ replay, repair

  /** With distinct nonces there is one canonical order. */
  lemma CanonicalOrderUnique(rs: seq<Reveal>, ss: seq<Reveal>)
    requires multiset(rs) == multiset(ss) && DistinctBy(rs, RevealNonce)
    ensures Sort(rs, Canonical) == Sort(ss, Canonical)
  {
    hide Sort;
    CanonicalIsTotal();
    SortSorted(rs, Canonical);
    SortSorted(ss, Canonical);
    SortPermutes(rs, Canonical);
    SortPermutes(ss, Canonical);
    DistinctPermutation(rs, Sort(rs, Canonical), RevealNonce);
    NoncesDecide(Sort(rs, Canonical));
    SortedUnique(Sort(rs, Canonical), Sort(ss, Canonical), Canonical);
  }

  lemma NoncesDecide(rs: seq<Reveal>)
    requires DistinctBy(rs, RevealNonce)
    ensures forall a, b :: a in rs && b in rs && Canonical(a, b) && Canonical(b, a) ==> a == b
  {
    forall a, b | a in rs && b in rs && Canonical(a, b) && Canonical(b, a)
      ensures a == b
    {
      var i :| 0 <= i < |rs| && rs[i] == a;
      var j :| 0 <= j < |rs| && rs[j] == b;
      assert RevealNonce(rs[i]) == RevealNonce(rs[j]);
    }
  }

  /**
   The honest case, from the payloads: when every committed order, in the order of
   submission, is revealed by a payload that reads as it, then whatever order these
   payloads arrive in, exactly the committed orders are accepted.
   */
  lemma HonestPayloadsAccepted(h: Hash, c: Codec, payloads: seq<Payload>, honest: seq<Payload>, committed: seq<Reveal>)
    requires |honest| == |committed| && forall i :: 0 <= i < |honest| ==> ReadsAs(c, honest[i], committed[i])
    requires multiset(payloads) == multiset(honest) && InOrder(committed) && DistinctBy(committed, RevealNonce)
    ensures Validated(h, c, payloads, OrderAcc(h, Cis(h, committed))) == committed
  {
    hide Validated, ReadsAs, OrderAcc, Cis, Parsed;
    ParsedOf(c, honest, committed);
    ParsedPermutes(c, payloads, honest);
    HonestRevealsAccepted(h, c, payloads, committed);
  }

  lemma ShiftKeepsDistinct(rs: seq<Reveal>, offsets: seq<nat>)
    requires |offsets| == |rs| && DistinctBy(rs, RevealNonce)
    ensures DistinctBy(Shift(rs, offsets), RevealNonce)
  {
    var moved := Shift(rs, offsets);
    forall i, j | 0 <= i < j < |moved|
      ensures RevealNonce(moved[i]) != RevealNonce(moved[j])
    {
      assert RevealNonce(rs[i]) != RevealNonce(rs[j]);
    }
  }

  /** A drift that explains the accumulator for one arrival order explains it for every other. */
  lemma RepairableIgnoresArrivalOrder(h: Hash, rs: seq<Reveal>, ss: seq<Reveal>, acc: int, maxOffset: nat)
    requires multiset(rs) == multiset(ss) && DistinctBy(rs, RevealNonce) && Repairable(h, rs, acc, maxOffset)
    ensures Repairable(h, ss, acc, maxOffset)
  {
    hide OrderAcc, Cis, OffsetFor, Shift;
    var offsets :| InBox(offsets, |rs|, maxOffset) && Matches(h, rs, offsets, acc);
    var off := n => OffsetFor(rs, offsets, n);
    var moved := seq(|ss|, i requires 0 <= i < |ss| => off(ss[i].orderNonce));
    forall i | 0 <= i < |rs|
      ensures offsets[i] == off(rs[i].orderNonce)
    {
      OffsetForOwn(rs, offsets, i);
    }
    assert |multiset(rs)| == |multiset(ss)|;
    ShiftPermutes(rs, offsets, ss, moved, off);
    ShiftKeepsDistinct(rs, offsets);
    CanonicalOrderUnique(Shift(rs, offsets), Shift(ss, moved));
    assert InBox(moved, |ss|, maxOffset) && Matches(h, ss, moved, acc);
  }

  lemma RepairIgnoresArrivalOrder(h: Hash, c: Codec, xs: seq<Payload>, ys: seq<Payload>, acc: int,
                                  maxOffset: nat, maxOrders: nat)
    requires Injective(h) && NeverZero(h)
    requires multiset(xs) == multiset(ys) && DistinctBy(Parsed(c, xs), RevealNonce)
    ensures
      var a, b := Repair(h, c, xs, acc, maxOffset, maxOrders), Repair(h, c, ys, acc, maxOffset, maxOrders);
      (a.Some? <==> b.Some?) && (a.Some? ==> a.value.validated == b.value.validated)
  {
    hide Repair, Repairable, OrderAcc, Cis, Injective, NeverZero, Parsed, Corrected;
    assert |multiset(xs)| == |multiset(ys)|;
    if 0 < |xs| <= maxOrders {
      var rs, ss := Parsed(c, xs), Parsed(c, ys);
      ParsedPermutes(c, xs, ys);
      DistinctPermutation(rs, ss, RevealNonce);
      RepairIsSoundAndComplete(h, c, xs, acc, maxOffset, maxOrders);
      RepairIsSoundAndComplete(h, c, ys, acc, maxOffset, maxOrders);
      if Repairable(h, rs, acc, maxOffset) {
        RepairableIgnoresArrivalOrder(h, rs, ss, acc, maxOffset);
        CommittedListBinds(h, Repair(h, c, xs, acc, maxOffset, maxOrders).value.validated,
                           Repair(h, c, ys, acc, maxOffset, maxOrders).value.validated);
      } else if Repairable(h, ss, acc, maxOffset) {
        RepairableIgnoresArrivalOrder(h, ss, rs, acc, maxOffset);
      }
    } else {
      OutOfReach(h, c, xs, acc, maxOffset, maxOrders);
      OutOfReach(h, c, ys, acc, maxOffset, maxOrders);
    }
  }

  lemma OutOfReach(h: Hash, c: Codec, payloads: seq<Payload>, acc: int, maxOffset: nat, maxOrders: nat)
    requires |payloads| == 0 || |payloads| > maxOrders
    ensures Repair(h, c, payloads, acc, maxOffset, maxOrders) == None
  {}

  // ------------------------------------------------------------------ the plan

  /**
   Whatever the plan does with an epoch's reveals, it does with any rearrangement of them:
   the same throw, the same skip, or the same submission.
   */
  lemma PlanIgnoresArrivalOrder(w: World, epoch: EpochInfo, xs: seq<Payload>, ys: seq<Payload>)
    requires Injective(w.h) && NeverZero(w.h)
    requires multiset(xs) == multiset(ys) && DistinctBy(Parsed(w.codec, xs), RevealNonce)
    ensures Accepted(w, epoch, xs) == Accepted(w, epoch, ys)
    ensures Plan(w, epoch, xs) == Plan(w, epoch, ys)
  {
    hide Repair, OrderAcc, Cis, Injective, NeverZero, Parsed, RouteReveals, ClearRouted, FallbackEntry;
    assert |multiset(xs)| == |multiset(ys)|;
    ParsedPermutes(w.codec, xs, ys);
    CanonicalOrderUnique(Parsed(w.codec, xs), Parsed(w.codec, ys));
    RepairIgnoresArrivalOrder(w.h, w.codec, xs, ys, epoch.orderAcc, REPAIR_MAX_OFFSET, REPAIR_MAX_ORDERS);
    assert Accepted(w, epoch, xs) == Accepted(w, epoch, ys);
  }

  // ------------------------------------------------------------- late reveals

  /** The reveals are the committed orders with their blocks up to maxOffset too late. */
  ghost predicate Late(committed: seq<Reveal>, late: seq<Reveal>, drift: seq<nat>, maxOffset: nat) {
    && |late| == |committed| == |drift|
    && forall i :: 0 <= i < |late| ==>
         drift[i] <= maxOffset
         && late[i] == committed[i].(submittedAtBlock := committed[i].submittedAtBlock + drift[i])
  }

  lemma CommittedStays(committed: seq<Reveal>)
    requires InOrder(committed) && DistinctBy(committed, RevealNonce)
    ensures Sort(committed, Canonical) == committed
  {
    hide Sort;
    CanonicalIsTotal();
    SortSorted(committed, Canonical);
    SortPermutes(committed, Canonical);
    NoncesDecide(committed);
    SortedUnique(committed, Sort(committed, Canonical), Canonical);
  }

  lemma LateIsRepairable(h: Hash, committed: seq<Reveal>, late: seq<Reveal>, drift: seq<nat>, maxOffset: nat)
    requires Late(committed, late, drift, maxOffset) && InOrder(committed) && DistinctBy(committed, RevealNonce)
    ensures Repairable(h, late, OrderAcc(h, Cis(h, committed)), maxOffset)
    ensures DistinctBy(late, RevealNonce)
  {
    hide OrderAcc, Cis, Sort, InOrder;
    forall i, j | 0 <= i < j < |late|
      ensures RevealNonce(late[i]) != RevealNonce(late[j])
    {
      assert RevealNonce(committed[i]) != RevealNonce(committed[j]);
    }
    assert Shift(late, drift) == committed;
    CommittedStays(committed);
    assert InBox(drift, |late|, maxOffset) && Matches(h, late, drift, OrderAcc(h, Cis(h, committed)));
  }

  /**
   What repair is for: when every committed order is revealed, each at most three blocks
   late and no more than six in all, then whatever order the payloads arrive in, exactly
   the committed orders are accepted.
   */
  lemma LatePayloadsAccepted(w: World, epoch: EpochInfo, payloads: seq<Payload>, honest: seq<Payload>,
                             committed: seq<Reveal>, late: seq<Reveal>, drift: seq<nat>)
    requires Injective(w.h) && NeverZero(w.h) && epoch.orderAcc == OrderAcc(w.h, Cis(w.h, committed))
    requires epoch.orderCount > 0 && 0 < |payloads| <= 6
    requires Late(committed, late, drift, 3) && InOrder(committed) && DistinctBy(committed, RevealNonce)
    requires |honest| == |late| && forall i :: 0 <= i < |honest| ==> ReadsAs(w.codec, honest[i], late[i])
    requires multiset(payloads) == multiset(honest)
    ensures Accepted(w, epoch, payloads) == committed
  {
    hide Validated, Repair, Repairable, ReadsAs, OrderAcc, Cis, Parsed, Injective, NeverZero, Late, InOrder, Plan;
    assert |multiset(payloads)| == |multiset(honest)|;
    ParsedOf(w.codec, honest, late);
    LateIsRepairable(w.h, committed, late, drift, 3);
    ParsedPermutes(w.codec, payloads, honest);
    DistinctPermutation(late, Parsed(w.codec, payloads), RevealNonce);
    PlanIgnoresArrivalOrder(w, epoch, payloads, honest);
    ReplayIsSound(w.h, w.codec, honest, committed);
    RepairIsSoundAndComplete(w.h, w.codec, honest, epoch.orderAcc, REPAIR_MAX_OFFSET, REPAIR_MAX_ORDERS);
    RepairRecoversCommitted(w.h, w.codec, honest, committed, REPAIR_MAX_OFFSET, REPAIR_MAX_ORDERS);
  }

  /**
   What is accepted, exactly: the committed orders when the canonical reveals are them or
   some drift of at most three blocks on at most six payloads makes them so, and nothing
   otherwise.
   */
  lemma AcceptedExactly(w: World, epoch: EpochInfo, payloads: seq<Payload>, committed: seq<Reveal>)
    requires Injective(w.h) && NeverZero(w.h) && epoch.orderAcc == OrderAcc(w.h, Cis(w.h, committed))
    requires epoch.orderCount > 0
    ensures
      var rs := Parsed(w.codec, payloads);
      var drifted := 0 < |payloads| <= 6
                     && exists offsets :: InBox(offsets, |rs|, 3) && Corrected(rs, offsets) == committed;
      Accepted(w, epoch, payloads) == if Sort(rs, Canonical) == committed || drifted then committed else []
  {
    hide Validated, Repair, OrderAcc, Cis, Parsed, Injective, NeverZero, Corrected, Sort;
    var rs := Parsed(w.codec, payloads);
    ReplayIsSound(w.h, w.codec, payloads, committed);
    if 0 < |payloads| <= 6 {
      RepairIsSoundAndComplete(w.h, w.codec, payloads, epoch.orderAcc, REPAIR_MAX_OFFSET, REPAIR_MAX_ORDERS);
      RepairRecoversCommitted(w.h, w.codec, payloads, committed, REPAIR_MAX_OFFSET, REPAIR_MAX_ORDERS);
      if offsets :| InBox(offsets, |rs|, 3) && Corrected(rs, offsets) == committed {
        assert Matches(w.h, rs, offsets, epoch.orderAcc);
        assert Repairable(w.h, rs, epoch.orderAcc, 3);
      }
    } else {
      OutOfReach(w.h, w.codec, payloads, epoch.orderAcc, REPAIR_MAX_OFFSET, REPAIR_MAX_ORDERS);
    }
  }
}
