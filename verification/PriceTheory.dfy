/** What the price search guarantees about the price it returns. */
module PriceTheory {
  import opened Arithmetic
  import opened FixedPoint
  import opened Sequences
  import opened Swap
  import opened SwapTheory
  import opened Price

  // ---------------------------------------------------------- net imbalance

  function BuyTerm(o: Order, p: nat): int {
    if BuyEligible(o, p) then o.amountIn else 0
  }

  function SellTerm(o: Order, p: nat): int {
    if SellEligible(o, p) then o.amountIn else 0
  }

  lemma EligibleTotals(batch: seq<Order>, p: nat)
    ensures TotalIn(Buys(batch, p)) == SumOver(batch, o => BuyTerm(o, p))
    ensures TotalIn(Sells(batch, p)) == SumOver(batch, o => SellTerm(o, p))
  {
    SumFilter(batch, o => BuyEligible(o, p), AmountInOf, o => BuyTerm(o, p));
    SumFilter(batch, o => SellEligible(o, p), AmountInOf, o => SellTerm(o, p));
  }

  /** A higher candidate price never leaves more token A over. */
  lemma NetAIsNonIncreasing(batch: seq<Order>, p: nat, q: nat)
    requires p <= q
    ensures NetA(batch, q) <= NetA(batch, p)
  {
    EligibleTotals(batch, p);
    EligibleTotals(batch, q);
    SumMono(batch, o => BuyTerm(o, q), o => BuyTerm(o, p));
    SumMono(batch, o => SellTerm(o, p), o => SellTerm(o, q));
    var bp, bq := TotalIn(Sells(batch, p)), TotalIn(Sells(batch, q));
    MulMono(bp, bq, p);
    MulMono(p, q, bq);
    FloorMono(bp * p, bq * q, SCALE);
  }

  // -------------------------------------------------------------- bisection

  predicate Funded(b: Bucket) {
    b.state.liquidity > 0
  }

  /** The search band exists exactly when some bucket is funded, and is the tightest one around all funded buckets. */
  lemma {:induction false} BandSpansFunded(bs: seq<Bucket>)
    ensures Band(bs).Some? <==> exists b :: b in bs && Funded(b)
    ensures Band(bs).Some? ==>
      var (low, high) := Band(bs).value;
      && (forall b :: b in bs && Funded(b) ==> low <= PriceOf(b.bounds.lower) && PriceOf(b.bounds.upper) <= high)
      && (exists b :: b in bs && Funded(b) && PriceOf(b.bounds.lower) == low)
      && (exists b :: b in bs && Funded(b) && PriceOf(b.bounds.upper) == high)
  {
    hide PriceOf;
    if |bs| > 0 {
      var init, last := bs[..|bs| - 1], bs[|bs| - 1];
      BandSpansFunded(init);
      assert bs == init + [last];
      if Funded(last) {
        assert last in bs;
      }
    }
  }

  /**
   The search runs from a hundredth of the lowest funded price, or one raw unit, to a
   hundred times the highest.
   */
  lemma BandReaches(bs: seq<Bucket>)
    requires Band(bs).Some?
    ensures
      var lo, hi := LowStart(Band(bs).value), HighStart(Band(bs).value);
      && lo >= 1
      && (forall b :: b in bs && b.state.liquidity > 0 ==>
            && (lo == 1 || lo * 100 <= b.bounds.lower * b.bounds.lower / SCALE)
            && (b.bounds.upper * b.bounds.upper / SCALE) * 100 <= hi)
      && (exists b :: b in bs && b.state.liquidity > 0
            && b.bounds.lower * b.bounds.lower / SCALE < (lo + 1) * 100)
      && (exists b :: b in bs && b.state.liquidity > 0
            && (b.bounds.upper * b.bounds.upper / SCALE) * 100 == hi)
  {
    hide Band;
    BandSpansFunded(bs);
    var (low, high) := Band(bs).value;
    var b :| b in bs && Funded(b) && PriceOf(b.bounds.lower) == low;
    var b' :| b' in bs && Funded(b') && PriceOf(b'.bounds.upper) == high;
    assert b.bounds.lower * b.bounds.lower / SCALE < (LowStart((low, high)) + 1) * 100;
    assert (b'.bounds.upper * b'.bounds.upper / SCALE) * 100 == HighStart((low, high));
  }

  /** The root is bracketed, as far as the two end probes can tell. */
  ghost predicate Bracketed(pool: Pool, batch: seq<Order>, lo: nat, hi: nat) {
    var atLo, atHi := ProbeAt(pool, batch, lo), ProbeAt(pool, batch, hi);
    atLo.Ok? && atHi.Ok? && LowSide(atLo.value) && HighSide(atHi.value)
  }

  lemma FewerEligible(batch: seq<Order>, p: nat, q: nat)
    requires p <= q
    ensures |Buys(batch, p)| == 0 ==> |Buys(batch, q)| == 0
    ensures |Sells(batch, q)| == 0 ==> |Sells(batch, p)| == 0
  {
    if |Buys(batch, q)| > 0 {
      assert Buys(batch, q)[0] in Buys(batch, p);
    }
    if |Sells(batch, p)| > 0 {
      assert Sells(batch, p)[0] in Sells(batch, q);
    }
  }

  lemma NoBuysNoSurplus(batch: seq<Order>, p: nat)
    ensures |Buys(batch, p)| == 0 ==> NetA(batch, p) <= 0
    ensures |Sells(batch, p)| == 0 ==> NetA(batch, p) >= 0
  {
    FloorNonNeg(TotalIn(Sells(batch, p)) * p, SCALE);
    assert 0 * p == 0;
  }

  /** Below a price that is too low every price is too low: the search may discard them all. */
  lemma TooLowIsDownwardClosed(pool: Pool, batch: seq<Order>, p: nat, q: nat)
    requires q <= p && ProbeAt(pool, batch, p) == Ok(TooLow)
    ensures ProbeAt(pool, batch, q).Ok? ==> ProbeAt(pool, batch, q).value.TooLow?
  {
    hide TraceSwap, Buys, Sells, TotalIn, NetA;
    NetAIsNonIncreasing(batch, q, p);
    FewerEligible(batch, q, p);
    NoBuysNoSurplus(batch, q);
    NoEligibleSide(batch, q);
    if NetA(batch, p) > 0 && DirectedTrace(pool, false, NetA(batch, q)).Ok? {
      SmallerSwapSettles(pool, false, NetA(batch, q), NetA(batch, p));
    }
  }

  /** Token B routed at a price that leaves a token A deficit. */
  function RoutedB(batch: seq<Order>, p: nat): int
    requires p > 0
  {
    -NetA(batch, p) * SCALE / p
  }

  /**
   Above a price that is too high a price is too high exactly when its own token B
   cannot be routed. It cannot when it is no less; flooring can make it less.
   */
  lemma TooHighAbove(pool: Pool, batch: seq<Order>, p: nat, q: nat)
    requires 0 < p <= q && ProbeAt(pool, batch, p) == Ok(TooHigh) && ProbeAt(pool, batch, q).Ok?
    ensures NetA(batch, p) >= 0 ==> ProbeAt(pool, batch, q).value.TooHigh?
    ensures NetA(batch, p) < 0 ==>
      && RoutedB(batch, q) >= 0
      && (ProbeAt(pool, batch, q).value.TooHigh? <==> DirectedTrace(pool, true, RoutedB(batch, q)).Err?)
      && (RoutedB(batch, q) >= RoutedB(batch, p) ==> ProbeAt(pool, batch, q).value.TooHigh?)
  {
    hide TraceSwap, Buys, Sells, TotalIn, NetA;
    NetAIsNonIncreasing(batch, p, q);
    FewerEligible(batch, p, q);
    NoBuysNoSurplus(batch, q);
    NoEligibleSide(batch, q);
    if NetA(batch, p) < 0 {
      FloorNonNeg(-NetA(batch, p) * SCALE, p);
      FloorNonNeg(-NetA(batch, q) * SCALE, q);
      if DirectedTrace(pool, true, RoutedB(batch, q)).Ok? && RoutedB(batch, q) >= RoutedB(batch, p) {
        SmallerSwapSettles(pool, true, RoutedB(batch, q), RoutedB(batch, p));
      }
    }
  }

  lemma NoEligibleSide(batch: seq<Order>, q: nat)
    ensures !HasSide(batch, false) ==> |Buys(batch, q)| == 0
    ensures !HasSide(batch, true) ==> |Sells(batch, q)| == 0
  {
    if !HasSide(batch, false) {
      NoSideNoOrders(batch, false, q);
    }
    if !HasSide(batch, true) {
      NoSideNoOrders(batch, true, q);
    }
  }

  /** What a found price of a mixed book is worth. */
  ghost predicate GoodExit(pool: Pool, batch: seq<Order>, p: nat, exit: Exit, ordered: bool) {
    var m := ProbeAt(pool, batch, p);
    && m.Ok? && m.value.Residual?
    && (exit == WithinTolerance ==> Close(m.value))
    && (exit == Endpoint ==> EndOfBracket(pool, batch, p, m.value.r, ordered))
    && exit != FixedPointReached
  }

  /**
   p is an end, with the sign that end must have, of a bracket no wider than one;
   when the search started in order, of adjacent or equal prices lo <= hi.
   */
  ghost predicate EndOfBracket(pool: Pool, batch: seq<Order>, p: nat, r: int, ordered: bool) {
    exists lo, hi :: Bracketed(pool, batch, lo, hi) && hi <= lo + 1 && (ordered ==> lo <= hi)
                     && ((p == lo && r >= 0) || (p == hi && r <= 0))
  }

  /** Every step keeps the bracket, so every found price is a good exit. */
  lemma {:induction false} BisectionIsSound(pool: Pool, batch: seq<Order>, lo: nat, hi: nat, iters: nat)
    requires Bracketed(pool, batch, lo, hi)
    requires Bisect(pool, batch, lo, hi, iters).Ok? && Bisect(pool, batch, lo, hi, iters).value.Found?
    ensures
      var found := Bisect(pool, batch, lo, hi, iters).value;
      && GoodExit(pool, batch, found.price, found.exit, lo <= hi)
      && (lo <= hi ==> lo <= found.price <= hi)
    decreases iters
  {
    hide ProbeAt;
    var mid := (lo + hi) / 2;
    var m := ProbeAt(pool, batch, mid).value;
    if !Close(m) {
      var lo', hi' := if RaisesLow(m) then mid else lo, if RaisesLow(m) then hi else mid;
      assert Bracketed(pool, batch, lo', hi');
      if hi' > lo' + 1 {
        BisectionIsSound(pool, batch, lo', hi', iters - 1);
      }
    }
  }

  /** Halving reaches adjacent prices before the iterations run out. */
  lemma {:induction false} BisectionConverges(pool: Pool, batch: seq<Order>, lo: nat, hi: nat, iters: nat)
    requires iters > 0 && hi <= lo + Pow2(iters)
    ensures Bisect(pool, batch, lo, hi, iters) != Ok(NotConverged)
    decreases iters
  {
    hide ProbeAt;
    var mid := (lo + hi) / 2;
    var probe := ProbeAt(pool, batch, mid);
    if probe.Ok? && !probe.value.Gap? && !Close(probe.value) {
      var lo', hi' := if RaisesLow(probe.value) then mid else lo, if RaisesLow(probe.value) then hi else mid;
      if hi' > lo' + 1 {
        assert hi' <= lo' + Pow2(iters - 1);
        BisectionConverges(pool, batch, lo', hi', iters - 1);
      }
    }
  }

  // ---------------------------------------------------------- one-sided book

  lemma LimitOrderIsTotal(isSellBook: bool)
    ensures TotalPreorder((a: Order, b: Order) => LimitOrder(isSellBook, a, b))
  {}

  /** The satisfiable orders lead a sorted candidate list. */
  lemma {:induction false} SatisfiedIsPrefix(xs: seq<Order>, isSellBook: bool, p: nat)
    requires Sorted(xs, (a: Order, b: Order) => LimitOrder(isSellBook, a, b))
    ensures Satisfied(xs, isSellBook, p) == xs[..|Satisfied(xs, isSellBook, p)|]
  {
    if |xs| > 0 {
      var init, last := xs[..|xs| - 1], xs[|xs| - 1];
      SatisfiedIsPrefix(init, isSellBook, p);
      if LimitOk(last, isSellBook, p) {
        forall o | o in xs
          ensures LimitOk(o, isSellBook, p)
        {
          var i :| 0 <= i < |xs| && xs[i] == o;
          assert i < |xs| - 1 ==> LimitOrder(isSellBook, xs[i], last);
        }
        FilterAll(xs, o => LimitOk(o, isSellBook, p));
      }
    }
  }

  lemma {:induction false} FilterAll<T>(xs: seq<T>, q: T -> bool)
    requires forall x :: x in xs ==> q(x)
    ensures Filter(xs, q) == xs
  {
    if |xs| > 0 {
      FilterAll(xs[..|xs| - 1], q);
    }
  }

  /** A price the refinement returns was computed over exactly the set it satisfies. */
  lemma {:induction false} RefineIsFixedPoint(pool: Pool, original: seq<Order>, isSellBook: bool,
                                              current: seq<Order>, seen: set<nat>, passes: nat)
    requires Sorted(original, (a: Order, b: Order) => LimitOrder(isSellBook, a, b))
    requires |current| <= |original| && current == original[..|current|]
    requires Refine(pool, original, isSellBook, current, seen, passes).Ok?
    requires Refine(pool, original, isSellBook, current, seen, passes).value.Found?
    ensures
      var found := Refine(pool, original, isSellBook, current, seen, passes).value;
      var kept := Satisfied(original, isSellBook, found.price);
      && found.exit == FixedPointReached && |kept| > 0
      && RealizedPrice(pool, isSellBook, TotalIn(kept)) == Ok(Some(found.price))
    decreases passes
  {
    hide RealizedPrice, Satisfied;
    var p := RealizedPrice(pool, isSellBook, TotalIn(current)).value.value;
    var next := Satisfied(original, isSellBook, p);
    SatisfiedIsPrefix(original, isSellBook, p);
    SatisfiedIsShorter(original, isSellBook, p);
    if |next| != |current| {
      RefineIsFixedPoint(pool, original, isSellBook, next, seen + {|next|}, passes - 1);
    }
  }

  lemma SatisfiedIsShorter(original: seq<Order>, isSellBook: bool, p: nat)
    ensures |Satisfied(original, isSellBook, p)| <= |original|
  {}

  function Sizes(n: nat): (r: set<nat>)
    ensures |r| == n + 1
    ensures forall k: nat :: k in r <==> k <= n
  {
    if n == 0 then {0} else Sizes(n - 1) + {n}
  }

  lemma SubsetSize<T>(a: set<T>, b: set<T>)
    requires a <= b
    ensures |a| <= |b|
  {
    assert b == a + (b - a);
  }

  /** Every pass meets a set size it has not met, so the passes cannot run out. */
  lemma {:induction false} RefineStopsInTime(pool: Pool, original: seq<Order>, isSellBook: bool,
                                             current: seq<Order>, seen: set<nat>, passes: nat)
    requires seen <= Sizes(|original|) && passes + |seen| >= |original| + 3
    ensures Refine(pool, original, isSellBook, current, seen, passes) != Ok(PassesExhausted)
    decreases passes
  {
    hide RealizedPrice, Satisfied, Sizes;
    SubsetSize(seen, Sizes(|original|));
    if |current| > 0 {
      var realized := RealizedPrice(pool, isSellBook, TotalIn(current));
      if realized.Ok? && realized.value.Some? {
        var next := Satisfied(original, isSellBook, realized.value.value);
        SatisfiedIsShorter(original, isSellBook, realized.value.value);
        if |next| != |current| && |next| !in seen {
          RefineStopsInTime(pool, original, isSellBook, next, seen + {|next|}, passes - 1);
        }
      }
    }
  }

  /** The batch's own eligible side at price p. */
  function Eligible(batch: seq<Order>, isSellBook: bool, p: nat): seq<Order> {
    if isSellBook then Sells(batch, p) else Buys(batch, p)
  }

  lemma CandidatesMatchBatch(batch: seq<Order>, isSellBook: bool, p: nat)
    ensures multiset(Satisfied(Candidates(batch, isSellBook), isSellBook, p))
         == multiset(Eligible(batch, isSellBook, p))
  {
    var side := (o: Order) => o.side == isSellBook;
    var ok := (o: Order) => LimitOk(o, isSellBook, p);
    var le := (a: Order, b: Order) => LimitOrder(isSellBook, a, b);
    SortPermutes(Filter(batch, side), le);
    FilterPermutation(Candidates(batch, isSellBook), Filter(batch, side), ok);
    if isSellBook {
      FilterFilter(batch, side, ok, o => SellEligible(o, p));
    } else {
      FilterFilter(batch, side, ok, o => BuyEligible(o, p));
    }
  }

  /**
   The one-sided search and the settlement agree: the returned price is the
   realized AMM price of exactly the orders the settlement finds eligible at it,
   there is at least one, and the search never runs out of passes.
   */
  lemma OneSidedSearchIsFixedPoint(pool: Pool, batch: seq<Order>, isSellBook: bool)
    ensures
      var r := OneSided(pool, batch, isSellBook);
      && r != Ok(PassesExhausted)
      && (r.Ok? && r.value.Found? ==>
            var eligible := Eligible(batch, isSellBook, r.value.price);
            && r.value.exit == FixedPointReached && |eligible| > 0
            && RealizedPrice(pool, isSellBook, TotalIn(eligible)) == Ok(Some(r.value.price)))
  {
    hide RealizedPrice, Satisfied, Eligible, TotalIn, Refine, LimitOrder;
    var original := Candidates(batch, isSellBook);
    LimitOrderIsTotal(isSellBook);
    SortSorted(Filter(batch, (o: Order) => o.side == isSellBook),
               (a: Order, b: Order) => LimitOrder(isSellBook, a, b));
    if |original| > 0 {
      RefineStopsInTime(pool, original, isSellBook, original, {|original|}, |original| + 2);
      var r := OneSided(pool, batch, isSellBook);
      if r.Ok? && r.value.Found? {
        assert original == original[..|original|];
        RefineIsFixedPoint(pool, original, isSellBook, original, {|original|}, |original| + 2);
        CandidatesMatchBatch(batch, isSellBook, r.value.price);
        var a, b := Satisfied(original, isSellBook, r.value.price), Eligible(batch, isSellBook, r.value.price);
        assert |multiset(a)| == |multiset(b)|;
        SameTotal(a, b);
      }
    }
  }

  lemma SameTotal(a: seq<Order>, b: seq<Order>)
    requires multiset(a) == multiset(b)
    ensures TotalIn(a) == TotalIn(b)
  {
    SumPermutation(a, b, AmountInOf);
  }

  // ----------------------------------------------- search meets settlement

  /** The start price is at least one raw unit, so no upward divisor rounds to zero. */
  predicate PricedPool(pool: Pool) {
    pool.currentSqrtPrice * pool.currentSqrtPrice >= SCALE
  }

  lemma NoSideNoOrders(batch: seq<Order>, side: bool, p: nat)
    requires !HasSide(batch, side)
    ensures Eligible(batch, side, p) == []
  {
    FilterNone(batch, if side then (o: Order) => SellEligible(o, p) else (o: Order) => BuyEligible(o, p));
  }

  lemma {:induction false} FilterNone<T>(xs: seq<T>, q: T -> bool)
    requires forall x :: x in xs ==> !q(x)
    ensures Filter(xs, q) == []
  {
    if |xs| > 0 {
      FilterNone(xs[..|xs| - 1], q);
    }
  }

  /** Converting token A to token B and back at one price never gains. */
  lemma ResizedInput(sumIn: nat, p: nat)
    requires p > 0
    ensures 0 <= (sumIn * p / SCALE) * SCALE / p <= sumIn
  {
    ResizedInputAt(SCALE, sumIn, p);
  }

  lemma ResizedInputAt(S: nat, sumIn: nat, p: nat)
    requires p > 0 && S > 0
    ensures 0 <= (sumIn * p / S) * S / p <= sumIn
  {
    var y := sumIn * p / S;
    FloorBounds(sumIn * p, S);
    FloorNonNeg(sumIn * p, S);
    FloorNonNeg(y * S, p);
    FloorBounds(y * S, p);
    MulCancel(y * S / p, sumIn, p);
  }

  /** The re-run of a one-sided sell book at its own price never saturates. */
  lemma SellRerunSettles(pool: Pool, batch: seq<Order>, p: nat)
    requires !HasSide(batch, false) && RealizedPrice(pool, true, TotalIn(Sells(batch, p))) == Ok(Some(p))
    ensures
      var r := RouteNet(pool, NetA(batch, p), p);
      && (r.Err? ==> r.error == DivisionByZero && !PricedPool(pool))
      && (r.Ok? ==> !r.value.saturated)
  {
    hide TraceSwap, Ratio, Sells, Buys, TotalIn, AfterFee;
    NoSideNoOrders(batch, false, p);
    var sumIn := TotalIn(Sells(batch, p));
    assert TotalIn([]) == 0 by { EmptyTotal(); }
    assert sumIn * SCALE / SCALE == sumIn;
    AfterFeePositive(sumIn);
    assert TraceSwap(pool, 0, sumIn).Ok?;
    if NetA(batch, p) != 0 {
      FloorNonNeg(sumIn * p, SCALE);
      assert p == 0 ==> sumIn * p == 0;
      ResizedInput(sumIn, p);
      SmallerSwapSettles(pool, true, sumIn, (-NetA(batch, p)) * SCALE / p);
    }
  }

  lemma EmptyTotal()
    ensures TotalIn([]) == 0
  {}

  lemma AfterFeePositive(x: nat)
    ensures AfterFee(x) > 0 ==> x > 0
  {}

  /** The re-run of a one-sided buy book at its own price is the very swap it was priced on. */
  lemma BuyRerunSettles(pool: Pool, batch: seq<Order>, p: nat)
    requires !HasSide(batch, true) && RealizedPrice(pool, false, TotalIn(Buys(batch, p))) == Ok(Some(p))
    ensures
      var r := RouteNet(pool, NetA(batch, p), p);
      r.Ok? && !r.value.saturated
  {
    hide TraceSwap, Ratio, Sells, Buys, TotalIn, AfterFee;
    NoSideNoOrders(batch, true, p);
    EmptyTotal();
    AfterFeePositive(TotalIn(Buys(batch, p)));
  }

  /**
   Whatever price the search returns, the settlement re-run at it has an eligible
   order and does not saturate: the two defensive guards never fire.
   */
  lemma SearchMeetsSettlement(pool: Pool, batch: seq<Order>)
    requires FindPrice(pool, batch).Ok? && FindPrice(pool, batch).value.Found?
    ensures
      var r := EvalAt(pool, batch, FindPrice(pool, batch).value.price);
      && (r.Err? ==> r.error == DivisionByZero && !PricedPool(pool))
      && (r.Ok? ==> |r.value.eligibleBuys| + |r.value.eligibleSells| > 0 && !r.value.swap.saturated)
  {
    hide OneSided, Bisect, Band, RouteNet;
    var p := FindPrice(pool, batch).value.price;
    var hasBuys, hasSells := HasSide(batch, false), HasSide(batch, true);
    if hasBuys != hasSells {
      OneSidedSearchIsFixedPoint(pool, batch, hasSells);
      if hasSells {
        SellRerunSettles(pool, batch, p);
      } else {
        BuyRerunSettles(pool, batch, p);
      }
    } else {
      var band := Band(pool.buckets).value;
      BisectionIsSound(pool, batch, LowStart(band), HighStart(band), MAX_ITERS);
    }
  }

  /** The starting bracket is in order exactly when the top of the band is worth at least one raw unit. */
  lemma BandIsOrdered(bs: seq<Bucket>)
    requires Band(bs).Some? && forall b :: b in bs ==> b.bounds.lower <= b.bounds.upper
    ensures LowStart(Band(bs).value) <= HighStart(Band(bs).value) <==> Band(bs).value.1 > 0
  {
    BandSpansFunded(bs);
    var (low, high) := Band(bs).value;
    var b :| b in bs && Funded(b) && PriceOf(b.bounds.lower) == low;
    MulMono(b.bounds.lower, b.bounds.upper, b.bounds.lower);
    MulMono(b.bounds.lower, b.bounds.upper, b.bounds.upper);
    FloorMono(b.bounds.lower * b.bounds.lower, b.bounds.upper * b.bounds.upper, SCALE);
    assert low <= high;
  }

  /** A mixed book's price is a good exit, and the iteration cap is out of reach. */
  lemma MixedSearchIsSound(pool: Pool, batch: seq<Order>)
    requires HasSide(batch, false) == HasSide(batch, true)
    ensures
      var r := FindPrice(pool, batch);
      && (r.Ok? && r.value.Found? ==>
            && Band(pool.buckets).Some?
            && var lo, hi := LowStart(Band(pool.buckets).value), HighStart(Band(pool.buckets).value);
               && GoodExit(pool, batch, r.value.price, r.value.exit, lo <= hi)
               && (lo <= hi ==> lo <= r.value.price <= hi))
      && (Band(pool.buckets).Some?
          && HighStart(Band(pool.buckets).value) <= LowStart(Band(pool.buckets).value) + Pow2(MAX_ITERS)
          ==> r != Ok(NotConverged))
  {
    hide Bisect, Band, ProbeAt, OneSided, GoodExit, Pow2;
    if Band(pool.buckets).Some? {
      var band := Band(pool.buckets).value;
      var lo, hi := LowStart(band), HighStart(band);
      if hi <= lo + Pow2(MAX_ITERS) {
        BisectionConverges(pool, batch, lo, hi, MAX_ITERS);
      }
      var r := FindPrice(pool, batch);
      if r.Ok? && r.value.Found? {
        BisectionIsSound(pool, batch, lo, hi, MAX_ITERS);
      }
    }
  }
}
