/**
 When the price search may come back without a price, in terms of what the probes say:
 the bisection of a mixed book gives up only where the book leaves it no choice, and the
 refinement of a one-sided book finds a fixed point whenever its passes lead to one.
 */
module SearchOutcomes {
  import opened Arithmetic
  import opened FixedPoint
  import opened Sequences
  import opened Buckets
  import opened Swap
  import opened SwapTheory
  import opened Apportion
  import opened Backing
  import opened Price
  import opened PriceTheory

  // ------------------------------------------------------------ the mixed book

  ghost predicate Within(lo: nat, hi: nat, p: nat) {
    (lo <= p <= hi) || (hi <= p <= lo)
  }

  /** No order is eligible at some price of the bracket. */
  ghost predicate HasGap(pool: Pool, batch: seq<Order>, lo: nat, hi: nat) {
    exists p :: Within(lo, hi, p) && ProbeAt(pool, batch, p) == Ok(Gap)
  }

  /** Some price of the bracket is too low and the next one is too high. */
  ghost predicate HasJump(pool: Pool, batch: seq<Order>, lo: nat, hi: nat) {
    exists p :: lo <= p < hi && ProbeAt(pool, batch, p) == Ok(TooLow) && ProbeAt(pool, batch, p + 1) == Ok(TooHigh)
  }

  /** Some probe of the bracket throws. */
  ghost predicate Throws(pool: Pool, batch: seq<Order>, lo: nat, hi: nat, e: Error) {
    exists p :: Within(lo, hi, p) && ProbeAt(pool, batch, p) == Err(e)
  }

  /** Why a bisection ends as it does. */
  ghost predicate Explained(pool: Pool, batch: seq<Order>, lo: nat, hi: nat, r: Result<SearchResult>) {
    match r
    case Err(e) => Throws(pool, batch, lo, hi, e)
    case Ok(BookGap) => HasGap(pool, batch, lo, hi)
    case Ok(NoEndpoint) => HasJump(pool, batch, lo, hi)
    case Ok(out) => out.Found? || out.NotConverged?
  }

  lemma ExplainedInside(pool: Pool, batch: seq<Order>, lo: nat, hi: nat, a: nat, b: nat, r: Result<SearchResult>)
    requires lo <= a <= b <= hi && Explained(pool, batch, a, b, r)
    ensures Explained(pool, batch, lo, hi, r)
  {
    hide ProbeAt;
    match r
    case Err(e) =>
      var p :| Within(a, b, p) && ProbeAt(pool, batch, p) == Err(e);
      assert Within(lo, hi, p);
    case Ok(BookGap) =>
      var p :| Within(a, b, p) && ProbeAt(pool, batch, p) == Ok(Gap);
      assert Within(lo, hi, p);
    case Ok(NoEndpoint) =>
      var p :| a <= p < b && ProbeAt(pool, batch, p) == Ok(TooLow) && ProbeAt(pool, batch, p + 1) == Ok(TooHigh);
      assert lo <= p < hi;
    case Ok(_) =>
  }

  /** Adjacent or crossed ends: no endpoint only where the price jumps from too low to too high. */
  lemma SettleExplained(pool: Pool, batch: seq<Order>, lo: nat, hi: nat)
    requires Bracketed(pool, batch, lo, hi) && hi <= lo + 1
    ensures Settle(pool, batch, lo, hi).Ok?
    ensures Settle(pool, batch, lo, hi).value.Found? || (hi == lo + 1 && HasJump(pool, batch, lo, hi))
    ensures Settle(pool, batch, lo, hi).value.Found? || Settle(pool, batch, lo, hi).value.NoEndpoint?
  {
    hide ProbeAt;
    var atLo, atHi := ProbeAt(pool, batch, lo).value, ProbeAt(pool, batch, hi).value;
    if atLo.TooLow? && atHi.TooHigh? && hi <= lo {
      TooLowIsDownwardClosed(pool, batch, lo, hi);
      assert false;
    }
  }

  /** Every outcome of a bisection from a bracket is explained by the probes inside it. */
  lemma {:induction false} BisectExplained(pool: Pool, batch: seq<Order>, lo: nat, hi: nat, iters: nat)
    requires Bracketed(pool, batch, lo, hi)
    ensures Explained(pool, batch, lo, hi, Bisect(pool, batch, lo, hi, iters))
    decreases iters
  {
    hide ProbeAt, Settle;
    if iters > 0 {
      var mid := (lo + hi) / 2;
      assert Within(lo, hi, mid);
      var probe := ProbeAt(pool, batch, mid);
      if probe.Ok? && !probe.value.Gap? && !Close(probe.value) {
        var lo', hi' := if RaisesLow(probe.value) then mid else lo, if RaisesLow(probe.value) then hi else mid;
        assert Bracketed(pool, batch, lo', hi');
        if hi' <= lo' + 1 {
          SettleExplained(pool, batch, lo', hi');
        } else {
          BisectExplained(pool, batch, lo', hi', iters - 1);
        }
        if lo' <= hi' {
          ExplainedBetween(pool, batch, lo, hi, lo', hi', Bisect(pool, batch, lo, hi, iters));
        }
      }
    }
  }

  lemma ExplainedBetween(pool: Pool, batch: seq<Order>, lo: nat, hi: nat, a: nat, b: nat, r: Result<SearchResult>)
    requires a <= b && (a == lo || b == hi) && Within(lo, hi, a) && Within(lo, hi, b)
    requires Explained(pool, batch, a, b, r)
    ensures Explained(pool, batch, lo, hi, r)
  {
    if lo <= hi {
      ExplainedInside(pool, batch, lo, hi, a, b, r);
    }
  }

  /**
   Every outcome of the mixed search: no funded bucket exactly without a band; no bracket
   exactly when both ends of the band answer, neither in a gap, and do not bracket; and
   otherwise what the probes between the ends explain.
   */
  lemma MixedOutcomes(pool: Pool, batch: seq<Order>)
    requires HasSide(batch, false) == HasSide(batch, true)
    ensures FindPrice(pool, batch) == Ok(NoFundedBucket) <==> Band(pool.buckets).None?
    ensures Band(pool.buckets).Some? ==>
      var lo, hi := LowStart(Band(pool.buckets).value), HighStart(Band(pool.buckets).value);
      var atLo, atHi := ProbeAt(pool, batch, lo), ProbeAt(pool, batch, hi);
      && (FindPrice(pool, batch) == Ok(NoBracket) <==>
            atLo.Ok? && atHi.Ok? && !atLo.value.Gap? && !atHi.value.Gap? && !Bracketed(pool, batch, lo, hi))
      && (FindPrice(pool, batch) != Ok(NoBracket) ==> Explained(pool, batch, lo, hi, FindPrice(pool, batch)))
  {
    hide ProbeAt, Band, OneSided, Bisect, HasSide;
    if Band(pool.buckets).Some? {
      var lo, hi := LowStart(Band(pool.buckets).value), HighStart(Band(pool.buckets).value);
      EndsExplained(pool, batch, lo, hi);
      if Bracketed(pool, batch, lo, hi) {
        BisectExplained(pool, batch, lo, hi, MAX_ITERS);
      }
    }
  }

  lemma EndsExplained(pool: Pool, batch: seq<Order>, lo: nat, hi: nat)
    ensures
      var atLo, atHi := ProbeAt(pool, batch, lo), ProbeAt(pool, batch, hi);
      && (atLo.Err? ==> Explained(pool, batch, lo, hi, Err(atLo.error)))
      && (atHi.Err? ==> Explained(pool, batch, lo, hi, Err(atHi.error)))
      && (atLo == Ok(Gap) || atHi == Ok(Gap) ==> Explained(pool, batch, lo, hi, Ok(BookGap)))
  {
    hide ProbeAt;
    assert Within(lo, hi, lo) && Within(lo, hi, hi);
  }

  /** Bracketing: the low end is too low or at most the buckets' price, the high end too high or at least that. */
  lemma BracketReads(pool: Pool, batch: seq<Order>, lo: nat, hi: nat)
    ensures Bracketed(pool, batch, lo, hi) <==>
      var atLo, atHi := ProbeAt(pool, batch, lo), ProbeAt(pool, batch, hi);
      && atLo.Ok? && (atLo.value.TooLow? || (atLo.value.Residual? && atLo.value.r >= 0))
      && atHi.Ok? && (atHi.value.TooHigh? || (atHi.value.Residual? && atHi.value.r <= 0))
  {
    hide ProbeAt;
  }

  /**
   So a mixed book whose band brackets it, whose probes all answer, and which has neither
   a gap nor a jump in the band, is given a price.
   */
  lemma MixedSearchFinds(pool: Pool, batch: seq<Order>, lo: nat, hi: nat)
    requires HasSide(batch, false) && HasSide(batch, true) && Band(pool.buckets).Some?
    requires lo == LowStart(Band(pool.buckets).value) && hi == HighStart(Band(pool.buckets).value)
    requires hi <= lo + Pow2(MAX_ITERS) && Bracketed(pool, batch, lo, hi)
    requires !HasGap(pool, batch, lo, hi) && !HasJump(pool, batch, lo, hi)
    requires forall p :: Within(lo, hi, p) ==> ProbeAt(pool, batch, p).Ok?
    ensures FindPrice(pool, batch).Ok? && FindPrice(pool, batch).value.Found?
  {
    hide ProbeAt, Band, HasSide, FindPrice, Pow2, HasGap, HasJump, Within;
    MixedOutcomes(pool, batch);
    MixedSearchIsSound(pool, batch);
    BracketIsNoGap(pool, batch, lo, hi);
  }

  lemma BracketIsNoGap(pool: Pool, batch: seq<Order>, lo: nat, hi: nat)
    requires Bracketed(pool, batch, lo, hi)
    ensures !ProbeAt(pool, batch, lo).value.Gap? && !ProbeAt(pool, batch, hi).value.Gap?
  {
    hide ProbeAt;
  }

  // ------------------------------------------------------------ what a probe says

  /** Some order of the batch accepts price p. */
  ghost predicate SomeoneAccepts(batch: seq<Order>, p: nat) {
    exists o :: o in batch && (if o.side then o.limitPrice <= p else o.limitPrice >= p)
  }

  lemma AcceptsIsEligible(batch: seq<Order>, p: nat)
    ensures SomeoneAccepts(batch, p) <==> |Buys(batch, p)| + |Sells(batch, p)| > 0
  {
    if |Buys(batch, p)| > 0 {
      assert Buys(batch, p)[0] in batch;
    } else if |Sells(batch, p)| > 0 {
      assert Sells(batch, p)[0] in batch;
    }
    if SomeoneAccepts(batch, p) {
      var o :| o in batch && (if o.side then o.limitPrice <= p else o.limitPrice >= p);
      assert o in Buys(batch, p) || o in Sells(batch, p);
    }
  }

  /** The price the buckets would trade the imbalance at: token A paid in, or out, per unit of token B. */
  function AmmPrice(n: NetSwap, netA: int, p: nat): int {
    if netA == 0 then p
    else if netA > 0 then (if n.ammBOut <= 0 then 0 else netA * SCALE / n.ammBOut)
    else if n.ammBIn == 0 || n.ammAOut < 0 then 0 else n.ammAOut * SCALE / n.ammBIn
  }

  /**
   What a probe of a mixed book says: a gap exactly when no order accepts the price; too
   low when the buckets cannot take the token A surplus, too high when they cannot take the
   deficit; and otherwise by how much their price exceeds the probed one.
   */
  lemma ProbeReads(pool: Pool, batch: seq<Order>, p: nat)
    requires HasSide(batch, false) && HasSide(batch, true) && RouteNet(pool, NetA(batch, p), p).Ok?
    ensures
      var n, netA := RouteNet(pool, NetA(batch, p), p).value, NetA(batch, p);
      ProbeAt(pool, batch, p) == Ok(
        if !SomeoneAccepts(batch, p) then Gap
        else if n.saturated then (if netA > 0 then TooLow else TooHigh)
        else Residual(AmmPrice(n, netA, p) - p))
  {
    hide TraceSwap, Buys, Sells, TotalIn, HasSide;
    AcceptsIsEligible(batch, p);
    var netA := NetA(batch, p);
    var n := RouteNet(pool, netA, p).value;
    if !n.saturated {
      RealizedIsAmmPrice(pool, netA, p);
    }
  }

  lemma RealizedIsAmmPrice(pool: Pool, netA: int, p: nat)
    requires RouteNet(pool, netA, p).Ok? && !RouteNet(pool, netA, p).value.saturated
    ensures
      var n := RouteNet(pool, netA, p).value;
      n.realizedP == AmmPrice(n, netA, p)
  {
    hide TraceSwap;
  }

  /**
   How good the price is: within 1e9 of the buckets' own price when the search stopped at a
   midpoint, and an end of the bracket only when no midpoint probed was that close.
   */
  lemma {:induction false} FoundAtFirstClose(pool: Pool, batch: seq<Order>, lo: nat, hi: nat, iters: nat)
    requires Bracketed(pool, batch, lo, hi)
    requires Bisect(pool, batch, lo, hi, iters).Ok? && Bisect(pool, batch, lo, hi, iters).value.Found?
    ensures
      var found := Bisect(pool, batch, lo, hi, iters).value;
      var probe := ProbeAt(pool, batch, found.price);
      && probe.Ok? && probe.value.Residual?
      && (found.exit == WithinTolerance ==> -1_000_000_000 <= probe.value.r <= 1_000_000_000)
      && (found.exit == Endpoint ==>
            found.price == lo || found.price == hi
            || probe.value.r > 1_000_000_000 || probe.value.r < -1_000_000_000)
      && (found.exit == WithinTolerance || found.exit == Endpoint)
    decreases iters
  {
    hide ProbeAt;
    var mid := (lo + hi) / 2;
    var m := ProbeAt(pool, batch, mid).value;
    if !Close(m) {
      var lo', hi' := if RaisesLow(m) then mid else lo, if RaisesLow(m) then hi else mid;
      assert Bracketed(pool, batch, lo', hi');
      if hi' > lo' + 1 {
        FoundAtFirstClose(pool, batch, lo', hi', iters - 1);
      }
    }
  }

  // --------------------------------------------------- where every probe answers

  /** A generated grid around the price, above the rounding of its divisors. */
  ghost predicate SoundGrid(pool: Pool) {
    && |pool.buckets| > 0 && Contiguous(pool.buckets)
    && pool.buckets[0].bounds.lower <= pool.currentSqrtPrice <= pool.buckets[|pool.buckets| - 1].bounds.upper
    && pool.buckets[0].bounds.lower * pool.buckets[0].bounds.lower >= SCALE
  }

  lemma DivisorAbove(low: nat, s: nat, t: nat)
    requires low <= s && low <= t && low * low >= SCALE
    ensures s * t / SCALE > 0
  {
    MulMono(low, s, low);
    MulMono(low, t, s);
    FloorAtLeast(s * t, SCALE, 1);
  }

  lemma StepAnswers(up: bool, id: nat, b: Bucket, s: nat, remaining: nat, low: nat)
    requires b.state.liquidity > 0 && b.bounds.lower <= s <= b.bounds.upper && remaining > 0
    requires low <= b.bounds.lower && low * low >= SCALE
    ensures SwapStep(up, id, b, s, remaining).Ok?
  {
    hide NextSqrtPDown;
    var L := b.state.liquidity;
    DivisorAbove(low, s, b.bounds.lower);
    if up {
      DivisorAbove(low, s, b.bounds.upper);
      DivisorAbove(low, s, NextSqrtPUp(L, s, remaining));
    }
  }

  lemma {:induction false} LowestBound(bs: seq<Bucket>, i: nat)
    requires Contiguous(bs) && i < |bs|
    ensures bs[0].bounds.lower <= bs[i].bounds.lower
  {
    if i > 0 {
      LowestBound(bs, i - 1);
    }
  }

  /** On such a grid a walk can only run out of buckets. */
  lemma {:induction false} WalkAnswers(bs: seq<Bucket>, up: bool, id: int, s: nat, remaining: nat)
    requires Contiguous(bs) && |bs| > 0 && -1 <= id <= |bs| && bs[0].bounds.lower * bs[0].bounds.lower >= SCALE
    requires 0 <= id < |bs| ==> bs[id].bounds.lower <= s <= bs[id].bounds.upper
    ensures Walk(bs, up, id, s, remaining).Err? ==> Walk(bs, up, id, s, remaining).error == ExceededBuckets
    decreases if up then |bs| - id else id + 1
  {
    hide SwapStep;
    if remaining > 0 && 0 <= id < |bs| {
      var b := bs[id];
      if b.state.liquidity == 0 {
        WalkAnswers(bs, up, Next(up, id), FarBound(up, b.bounds), remaining);
      } else {
        LowestBound(bs, id);
        StepAnswers(up, id, b, s, remaining, bs[0].bounds.lower);
        var st := SwapStep(up, id, b, s, remaining).value;
        if st.amountIn < remaining {
          CrossesAtBound(up, id, b, s, remaining);
          WalkAnswers(bs, up, Next(up, id), st.sqrtTo, remaining - st.amountIn);
        }
      }
    }
  }

  lemma CrossesAtBound(up: bool, id: nat, b: Bucket, s: nat, remaining: nat)
    requires b.state.liquidity > 0 && b.bounds.lower <= s <= b.bounds.upper && remaining > 0
    requires SwapStep(up, id, b, s, remaining).Ok? && SwapStep(up, id, b, s, remaining).value.amountIn < remaining
    ensures SwapStep(up, id, b, s, remaining).value.sqrtTo == FarBound(up, b.bounds)
  {
    hide SwapStep;
    StepTaken(up, id, b, s, remaining);
  }

  lemma {:induction false} SomeBucketHolds(bs: seq<Bucket>, s: nat, n: nat) returns (k: nat)
    requires Contiguous(bs) && 0 < n <= |bs| && bs[0].bounds.lower <= s < bs[n - 1].bounds.upper
    ensures k < n && bs[k].bounds.lower <= s < bs[k].bounds.upper
  {
    k := n - 1;
    if s < bs[n - 1].bounds.lower {
      k := SomeBucketHolds(bs, s, n - 1);
    }
  }

  lemma StartHolds(pool: Pool)
    requires SoundGrid(pool)
    ensures
      var id := StartBucket(pool);
      && 0 <= id < |pool.buckets|
      && pool.buckets[id].bounds.lower <= pool.currentSqrtPrice <= pool.buckets[id].bounds.upper
  {
    var bs, s := pool.buckets, pool.currentSqrtPrice;
    if s < bs[|bs| - 1].bounds.upper {
      var k := SomeBucketHolds(bs, s, |bs|);
      StartsAtPrice(pool, k);
    } else {
      forall k | 0 <= k < |bs|
        ensures bs[k].bounds.upper <= s
      {
        if k < |bs| - 1 {
          GridRises(bs, k, |bs| - 1);
        }
      }
      StartsAtEnd(pool);
    }
  }

  /** A swap on a sound grid fails only because the buckets cannot take it. */
  lemma SwapAnswers(pool: Pool, up: bool, input: nat)
    requires SoundGrid(pool)
    ensures DirectedTrace(pool, up, input).Err? ==> Infeasible(DirectedTrace(pool, up, input).error)
  {
    hide Walk, StartBucket, Split, SwapDeltas, AfterFee;
    StartHolds(pool);
    WalkAnswers(pool.buckets, up, StartBucket(pool), pool.currentSqrtPrice, AfterFee(input));
    if RouteSwap(pool, up, input).Ok? {
      RouteNeedsInput(pool, up, input);
    }
  }

  /** A volume too large for the buckets, or for four of them, saturates; it never throws. */
  lemma SaturatesExactly(pool: Pool, netA: int, p: nat)
    requires netA != 0 && (netA < 0 ==> p > 0 && -netA * SCALE / p >= 0)
    ensures
      var input := if netA > 0 then netA else -netA * SCALE / p;
      var t, r := DirectedTrace(pool, netA < 0, input), RouteNet(pool, netA, p);
      && (r.Ok? && r.value.saturated <==> t == Err(ExceededBuckets) || t == Err(TooManyBuckets))
      && (forall e :: r == Err(e) <==> t == Err(e) && e != ExceededBuckets && e != TooManyBuckets)
  {
    hide TraceSwap;
  }

  /** On a sound grid every probe answers. */
  lemma ProbesAnswer(pool: Pool, batch: seq<Order>, p: nat)
    requires SoundGrid(pool)
    ensures ProbeAt(pool, batch, p).Ok?
  {
    hide SoundGrid, RouteNet, Buys, Sells, TotalIn, DirectedTrace;
    var sellIn, netA := TotalIn(Sells(batch, p)), NetA(batch, p);
    FloorNonNeg(sellIn * p, SCALE);
    assert p == 0 ==> sellIn * p == 0;
    if netA < 0 {
      FloorNonNeg(-netA * SCALE, p);
      SwapAnswers(pool, true, -netA * SCALE / p);
    } else if netA > 0 {
      SwapAnswers(pool, false, netA);
    }
    if netA != 0 {
      SaturatesExactly(pool, netA, p);
    } else {
      assert RouteNet(pool, 0, p).Ok? by {
        IdleAnswers(pool, p);
      }
    }
  }

  lemma IdleAnswers(pool: Pool, p: nat)
    ensures RouteNet(pool, 0, p) == Ok(Idle(pool, p))
  {}

  /** There a bracketed mixed book with neither a gap nor a jump always has a price. */
  lemma SoundGridFinds(pool: Pool, batch: seq<Order>, lo: nat, hi: nat)
    requires SoundGrid(pool) && HasSide(batch, false) && HasSide(batch, true) && Band(pool.buckets).Some?
    requires lo == LowStart(Band(pool.buckets).value) && hi == HighStart(Band(pool.buckets).value)
    requires hi <= lo + Pow2(MAX_ITERS) && Bracketed(pool, batch, lo, hi)
    requires !HasGap(pool, batch, lo, hi) && !HasJump(pool, batch, lo, hi)
    ensures FindPrice(pool, batch).Ok? && FindPrice(pool, batch).value.Found?
  {
    hide ProbeAt, Band, HasSide, FindPrice, Pow2, HasGap, HasJump, SoundGrid, Bracketed;
    forall p: nat
      ensures ProbeAt(pool, batch, p).Ok?
    {
      ProbesAnswer(pool, batch, p);
    }
    MixedSearchFinds(pool, batch, lo, hi);
  }

  // -------------------------------------------------------- the one-sided book

  /** The size of the set that accepts the price of the first n candidates' input; none without a price. */
  function NextSize(pool: Pool, original: seq<Order>, isSellBook: bool, n: nat): (r: Option<nat>)
    requires n <= |original|
    ensures r.Some? ==> 0 < n && r.value <= |original|
  {
    if n == 0 then None
    else
      var realized := RealizedPrice(pool, isSellBook, TotalIn(original[..n]));
      if realized.Ok? && realized.value.Some? then Some(|Satisfied(original, isSellBook, realized.value.value)|)
      else None
  }

  /** The size after k passes, from all candidates. */
  function SizeAfter(pool: Pool, original: seq<Order>, isSellBook: bool, k: nat): (r: Option<nat>)
    ensures r.Some? ==> r.value <= |original|
  {
    if k == 0 then Some(|original|)
    else
      var earlier := SizeAfter(pool, original, isSellBook, k - 1);
      if earlier.None? then None else NextSize(pool, original, isSellBook, earlier.value)
  }

  /** Pass k meets a set that accepts its own price. */
  ghost predicate SettlesAt(pool: Pool, original: seq<Order>, isSellBook: bool, k: nat) {
    var now, next := SizeAfter(pool, original, isSellBook, k), SizeAfter(pool, original, isSellBook, k + 1);
    now.Some? && next == now
  }

  /** All sizes up to pass j are different. */
  ghost predicate Fresh(pool: Pool, original: seq<Order>, isSellBook: bool, j: nat) {
    forall a, b :: 0 <= a < b <= j ==>
      SizeAfter(pool, original, isSellBook, a) != SizeAfter(pool, original, isSellBook, b)
  }

  /** `seen` holds exactly the sizes up to pass j. */
  ghost predicate Collected(pool: Pool, original: seq<Order>, isSellBook: bool, j: nat, seen: set<nat>) {
    && (forall n :: n in seen ==> exists i :: 0 <= i <= j && SizeAfter(pool, original, isSellBook, i) == Some(n))
    && (forall i :: 0 <= i <= j ==>
          SizeAfter(pool, original, isSellBook, i).Some? && SizeAfter(pool, original, isSellBook, i).value in seen)
  }

  lemma {:induction false} EndedStaysEnded(pool: Pool, original: seq<Order>, isSellBook: bool, j: nat, k: nat)
    requires j <= k && SizeAfter(pool, original, isSellBook, j).None?
    ensures SizeAfter(pool, original, isSellBook, k).None?
  {
    hide NextSize;
    if j < k {
      EndedStaysEnded(pool, original, isSellBook, j, k - 1);
    }
  }

  /** Once a size comes back, the passes go round for ever. */
  lemma {:induction false} Cycles(pool: Pool, original: seq<Order>, isSellBook: bool, i: nat, j: nat, k: nat)
    requires i < j <= k && Fresh(pool, original, isSellBook, j)
    requires SizeAfter(pool, original, isSellBook, j + 1) == SizeAfter(pool, original, isSellBook, i)
    requires SizeAfter(pool, original, isSellBook, j).Some?
    ensures exists m ::
      i <= m <= j && SizeAfter(pool, original, isSellBook, k) == SizeAfter(pool, original, isSellBook, m)
  {
    hide NextSize;
    if k > j {
      Cycles(pool, original, isSellBook, i, j, k - 1);
      var m :| i <= m <= j
        && SizeAfter(pool, original, isSellBook, k - 1) == SizeAfter(pool, original, isSellBook, m);
      SameNext(pool, original, isSellBook, k - 1, m);
      if m == j {
        assert SizeAfter(pool, original, isSellBook, k) == SizeAfter(pool, original, isSellBook, i);
      } else {
        assert SizeAfter(pool, original, isSellBook, k) == SizeAfter(pool, original, isSellBook, m + 1);
      }
    }
  }

  lemma SameNext(pool: Pool, original: seq<Order>, isSellBook: bool, a: nat, b: nat)
    requires SizeAfter(pool, original, isSellBook, a) == SizeAfter(pool, original, isSellBook, b)
    ensures SizeAfter(pool, original, isSellBook, a + 1) == SizeAfter(pool, original, isSellBook, b + 1)
  {
    hide NextSize;
  }

  /** A size that comes back on a later pass means that no pass settles. */
  lemma CycleNeverSettles(pool: Pool, original: seq<Order>, isSellBook: bool, i: nat, j: nat, k: nat)
    requires i < j && Fresh(pool, original, isSellBook, j)
    requires SizeAfter(pool, original, isSellBook, j + 1) == SizeAfter(pool, original, isSellBook, i)
    requires SizeAfter(pool, original, isSellBook, j).Some?
    ensures !SettlesAt(pool, original, isSellBook, k)
  {
    hide SizeAfter;
    var m := k;
    if k > j {
      Cycles(pool, original, isSellBook, i, j, k);
      m :| i <= m <= j && SizeAfter(pool, original, isSellBook, k) == SizeAfter(pool, original, isSellBook, m);
      SameNext(pool, original, isSellBook, k, m);
    }
    if m == j {
      assert SizeAfter(pool, original, isSellBook, i) != SizeAfter(pool, original, isSellBook, j);
    }
  }

  lemma FreshNeverSettled(pool: Pool, original: seq<Order>, isSellBook: bool, j: nat, k: nat)
    requires Fresh(pool, original, isSellBook, j) && k < j
    ensures !SettlesAt(pool, original, isSellBook, k)
  {
    hide SizeAfter;
    assert SizeAfter(pool, original, isSellBook, k) != SizeAfter(pool, original, isSellBook, k + 1);
  }

  lemma EndedNeverSettles(pool: Pool, original: seq<Order>, isSellBook: bool, j: nat, k: nat)
    requires Fresh(pool, original, isSellBook, j) && SizeAfter(pool, original, isSellBook, j + 1).None?
    ensures !SettlesAt(pool, original, isSellBook, k)
  {
    hide SizeAfter, Fresh;
    if k < j {
      FreshNeverSettled(pool, original, isSellBook, j, k);
    } else {
      EndedStaysEnded(pool, original, isSellBook, j + 1, k + 1);
    }
  }

  /**
   The refinement, pass by pass: it returns a price exactly when some pass settles; it
   never takes a book for oscillating, empty or unroutable that would have settled later.
   */
  lemma {:induction false} RefineOutcome(pool: Pool, original: seq<Order>, isSellBook: bool, j: nat,
                                         current: seq<Order>, seen: set<nat>, passes: nat)
    requires Sorted(original, (a: Order, b: Order) => LimitOrder(isSellBook, a, b))
    requires |current| <= |original| && current == original[..|current|]
    requires SizeAfter(pool, original, isSellBook, j) == Some(|current|)
    requires Fresh(pool, original, isSellBook, j) && Collected(pool, original, isSellBook, j, seen)
    ensures
      var r := Refine(pool, original, isSellBook, current, seen, passes);
      && (r.Ok? && r.value.Found? ==> exists k :: SettlesAt(pool, original, isSellBook, k))
      && (r != Ok(PassesExhausted) && (r.Err? || !r.value.Found?) ==>
            forall k :: !SettlesAt(pool, original, isSellBook, k))
    decreases passes
  {
    hide RealizedPrice, Satisfied, SettlesAt, Collected, Fresh;
    var r := Refine(pool, original, isSellBook, current, seen, passes);
    if passes > 0 {
      var after := SizeAfter(pool, original, isSellBook, j + 1);
      if after.None? {
        forall k
          ensures !SettlesAt(pool, original, isSellBook, k)
        {
          EndedNeverSettles(pool, original, isSellBook, j, k);
        }
        assert r.Err? || !r.value.Found?;
      } else {
        var p := RealizedPrice(pool, isSellBook, TotalIn(current)).value.value;
        var next := Satisfied(original, isSellBook, p);
        assert after == Some(|next|);
        if |next| == |current| {
          Settles(pool, original, isSellBook, j);
        } else if |next| in seen {
          RepeatNeverSettles(pool, original, isSellBook, j, seen);
        } else {
          SatisfiedIsPrefix(original, isSellBook, p);
          SatisfiedIsShorter(original, isSellBook, p);
          NextPass(pool, original, isSellBook, j, seen);
          RefineOutcome(pool, original, isSellBook, j + 1, next, seen + {|next|}, passes - 1);
        }
      }
    }
  }

  lemma Settles(pool: Pool, original: seq<Order>, isSellBook: bool, j: nat)
    requires SizeAfter(pool, original, isSellBook, j).Some?
    requires SizeAfter(pool, original, isSellBook, j + 1) == SizeAfter(pool, original, isSellBook, j)
    ensures exists k :: SettlesAt(pool, original, isSellBook, k)
  {
    hide SizeAfter;
    assert SettlesAt(pool, original, isSellBook, j);
  }

  lemma RepeatNeverSettles(pool: Pool, original: seq<Order>, isSellBook: bool, j: nat, seen: set<nat>)
    requires Fresh(pool, original, isSellBook, j) && Collected(pool, original, isSellBook, j, seen)
    requires
      var now, next := SizeAfter(pool, original, isSellBook, j), SizeAfter(pool, original, isSellBook, j + 1);
      now.Some? && next.Some? && next != now && next.value in seen
    ensures forall k :: !SettlesAt(pool, original, isSellBook, k)
  {
    hide SizeAfter;
    var next := SizeAfter(pool, original, isSellBook, j + 1);
    var i :| 0 <= i <= j && SizeAfter(pool, original, isSellBook, i) == Some(next.value);
    forall k: nat
      ensures !SettlesAt(pool, original, isSellBook, k)
    {
      CycleNeverSettles(pool, original, isSellBook, i, j, k);
    }
  }

  lemma NextPass(pool: Pool, original: seq<Order>, isSellBook: bool, j: nat, seen: set<nat>)
    requires Fresh(pool, original, isSellBook, j) && Collected(pool, original, isSellBook, j, seen)
    requires SizeAfter(pool, original, isSellBook, j + 1).Some?
    requires SizeAfter(pool, original, isSellBook, j + 1).value !in seen
    ensures Fresh(pool, original, isSellBook, j + 1)
    ensures Collected(pool, original, isSellBook, j + 1, seen + {SizeAfter(pool, original, isSellBook, j + 1).value})
  {
    hide SizeAfter;
    var n := SizeAfter(pool, original, isSellBook, j + 1).value;
    forall x | x in seen + {n}
      ensures exists i :: 0 <= i <= j + 1 && SizeAfter(pool, original, isSellBook, i) == Some(x)
    {
      if x == n {
        assert SizeAfter(pool, original, isSellBook, j + 1) == Some(x);
      }
    }
  }

  /**
   A one-sided book is given a price exactly when its passes ever settle: the check for a
   repeated size and the limit on the passes never stop a search that would succeed.
   */
  lemma OneSidedFindsFixedPoint(pool: Pool, batch: seq<Order>, isSellBook: bool)
    requires |Candidates(batch, isSellBook)| > 0
    ensures
      var r := OneSided(pool, batch, isSellBook);
      (r.Ok? && r.value.Found?) <==> exists k :: SettlesAt(pool, Candidates(batch, isSellBook), isSellBook, k)
  {
    hide Refine, SettlesAt, Candidates;
    var original := Candidates(batch, isSellBook);
    OneSidedSearchIsFixedPoint(pool, batch, isSellBook);
    CandidatesSorted(batch, isSellBook);
    assert original[..|original|] == original;
    FirstPass(pool, original, isSellBook);
    RefineOutcome(pool, original, isSellBook, 0, original, {|original|}, |original| + 2);
  }

  lemma CandidatesSorted(batch: seq<Order>, isSellBook: bool)
    ensures Sorted(Candidates(batch, isSellBook), (a: Order, b: Order) => LimitOrder(isSellBook, a, b))
  {
    LimitOrderIsTotal(isSellBook);
    SortSorted(Filter(batch, (o: Order) => o.side == isSellBook),
               (a: Order, b: Order) => LimitOrder(isSellBook, a, b));
  }

  lemma FirstPass(pool: Pool, original: seq<Order>, isSellBook: bool)
    ensures SizeAfter(pool, original, isSellBook, 0) == Some(|original|)
    ensures Fresh(pool, original, isSellBook, 0) && Collected(pool, original, isSellBook, 0, {|original|})
  {
    forall n | n in {|original|}
      ensures exists i :: 0 <= i <= 0 && SizeAfter(pool, original, isSellBook, i) == Some(n)
    {
      assert SizeAfter(pool, original, isSellBook, 0) == Some(n);
    }
  }
}
