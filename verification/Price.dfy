/**
 The price search: the batch evaluated at one price, bisection of a mixed book,
 and the fixed point of a one-sided book. Spec functions first, then the loops.
 */
module Price {
  import opened FixedPoint
  import opened Sequences
  import opened Swap
  import opened SwapTheory

  /** side == false buys token B with token A; side == true sells token B. */
  datatype Order = Order(
    side: bool, amountIn: nat, limitPrice: nat, submittedAtBlock: int, orderNonce: int, owner: int)

  datatype NetSwap = NetSwap(
    newReserveA: int, newReserveB: int, realizedP: nat,
    ammAIn: nat, ammAOut: int, ammBIn: nat, ammBOut: int,
    saturated: bool, trace: Option<TraceOutput>)

  datatype PriceEval = PriceEval(
    netA: int, swap: NetSwap, eligibleBuys: seq<Order>, eligibleSells: seq<Order>)

  // ------------------------------------------------------------ one price

  function AmountInOf(o: Order): int { o.amountIn }

  function TotalIn(orders: seq<Order>): (r: nat)
  {
    SumNonNeg(orders, AmountInOf);
    SumOver(orders, AmountInOf)
  }

  function Idle(pool: Pool, p: nat): NetSwap {
    NetSwap(pool.reserveA, pool.reserveB, p, 0, 0, 0, 0, false, None)
  }

  function Saturated(pool: Pool): NetSwap {
    NetSwap(pool.reserveA, pool.reserveB, 0, 0, 0, 0, 0, true, None)
  }

  predicate Infeasible(e: Error) {
    e == ExceededBuckets || e == TooManyBuckets
  }

  /** `x * SCALE / y`, or zero when y is zero: the realized price of a swap. */
  function Ratio(x: int, y: int): nat {
    if x < 0 || y <= 0 then 0 else x * SCALE / y
  }

  /** The signed net imbalance routed through the buckets at candidate price p. */
  function RouteNet(pool: Pool, netA: int, p: nat): Result<NetSwap> {
    if netA == 0 then Ok(Idle(pool, p))
    else if netA > 0 then
      match TraceSwap(pool, netA, 0)
      case Ok(t) =>
        var out := SumOver(t.deltas, BSub);
        Ok(NetSwap(t.newReserveA, t.newReserveB, Ratio(netA, out), netA, 0, 0, out, false, Some(t)))
      case Err(e) => if Infeasible(e) then Ok(Saturated(pool)) else Err(e)
    else
      var inB :- MulDiv(-netA, SCALE, p);
      match TraceSwap(pool, 0, inB)
      case Ok(t) =>
        var out := SumOver(t.deltas, ASub);
        Ok(NetSwap(t.newReserveA, t.newReserveB, Ratio(out, inB), 0, out, inB, 0, false, Some(t)))
      case Err(e) => if Infeasible(e) then Ok(Saturated(pool)) else Err(e)
  }

  predicate BuyEligible(o: Order, p: nat) {
    !o.side && o.limitPrice >= p
  }

  predicate SellEligible(o: Order, p: nat) {
    o.side && o.limitPrice <= p
  }

  function Buys(batch: seq<Order>, p: nat): seq<Order> {
    Filter(batch, o => BuyEligible(o, p))
  }

  function Sells(batch: seq<Order>, p: nat): seq<Order> {
    Filter(batch, o => SellEligible(o, p))
  }

  function NetA(batch: seq<Order>, p: nat): int {
    TotalIn(Buys(batch, p)) - TotalIn(Sells(batch, p)) * p / SCALE
  }

  function EvalAt(pool: Pool, batch: seq<Order>, p: nat): Result<PriceEval> {
    var swap :- RouteNet(pool, NetA(batch, p), p);
    Ok(PriceEval(NetA(batch, p), swap, Buys(batch, p), Sells(batch, p)))
  }

  // ------------------------------------------------------------ bisection

  datatype Probe = Residual(r: int) | TooHigh | TooLow | Gap

  datatype Exit = WithinTolerance | Endpoint | FixedPointReached

  datatype SearchResult =
    | Found(price: nat, exit: Exit)
    | NoFundedBucket
    | EmptySide
    | NoBracket
    | BookGap
    | NoEndpoint
    | NotConverged
    | Unroutable
    | Oscillates
    | PassesExhausted

  predicate HasSide(batch: seq<Order>, side: bool) {
    exists i :: 0 <= i < |batch| && batch[i].side == side
  }

  function ProbeEval(batch: seq<Order>, ev: PriceEval, p: nat): Probe {
    if |ev.eligibleBuys| == 0 && |ev.eligibleSells| == 0 then
      if HasSide(batch, false) && HasSide(batch, true) then Gap
      else if HasSide(batch, false) then TooHigh
      else TooLow
    else if ev.swap.saturated then
      if ev.netA > 0 then TooLow else TooHigh
    else Residual(ev.swap.realizedP - p)
  }

  function ProbeAt(pool: Pool, batch: seq<Order>, p: nat): Result<Probe> {
    var ev :- EvalAt(pool, batch, p);
    Ok(ProbeEval(batch, ev, p))
  }

  /** A price at or below the root, as the search sees it. */
  predicate LowSide(m: Probe) {
    m.TooLow? || (m.Residual? && m.r >= 0)
  }

  /** A price at or above the root, as the search sees it. */
  predicate HighSide(m: Probe) {
    m.TooHigh? || (m.Residual? && m.r <= 0)
  }

  predicate Close(m: Probe) {
    m.Residual? && 0 <= m.r + TOLERANCE && m.r <= TOLERANCE
  }

  predicate RaisesLow(m: Probe) {
    m.TooLow? || (m.Residual? && m.r > 0)
  }

  /** The bracket has shrunk to adjacent prices: take an end that has eligible orders. */
  function Settle(pool: Pool, batch: seq<Order>, lo: nat, hi: nat): Result<SearchResult> {
    var atLo :- ProbeAt(pool, batch, lo);
    if atLo.Residual? then Ok(Found(lo, Endpoint))
    else
      var atHi :- ProbeAt(pool, batch, hi);
      Ok(if atHi.Residual? then Found(hi, Endpoint) else NoEndpoint)
  }

  function Bisect(pool: Pool, batch: seq<Order>, lo: nat, hi: nat, iters: nat): Result<SearchResult>
    decreases iters
  {
    if iters == 0 then Ok(NotConverged)
    else
      var mid := (lo + hi) / 2;
      var m :- ProbeAt(pool, batch, mid);
      if m.Gap? then Ok(BookGap)
      else if Close(m) then Ok(Found(mid, WithinTolerance))
      else
        var lo' := if RaisesLow(m) then mid else lo;
        var hi' := if RaisesLow(m) then hi else mid;
        if hi' <= lo' + 1 then Settle(pool, batch, lo', hi')
        else Bisect(pool, batch, lo', hi', iters - 1)
  }

  function PriceOf(sqrt: nat): nat {
    sqrt * sqrt / SCALE
  }

  /** Lowest lower and highest upper price over the funded buckets; None when none is funded. */
  function Band(bs: seq<Bucket>): Option<(nat, nat)> {
    if |bs| == 0 then None
    else
      var b := bs[|bs| - 1];
      var pl, ph := PriceOf(b.bounds.lower), PriceOf(b.bounds.upper);
      var rest := Band(bs[..|bs| - 1]);
      if b.state.liquidity == 0 then rest
      else match rest
        case None => Some((pl, ph))
        case Some(band) => Some((if pl < band.0 then pl else band.0, if ph > band.1 then ph else band.1))
  }

  function LowStart(band: (nat, nat)): nat {
    if band.0 / PRICE_BAND < 1 then 1 else band.0 / PRICE_BAND
  }

  function HighStart(band: (nat, nat)): nat {
    band.1 * PRICE_BAND
  }

  // ------------------------------------------------------ one-sided book

  predicate LimitOk(o: Order, isSellBook: bool, p: nat) {
    if isSellBook then o.limitPrice <= p else o.limitPrice >= p
  }

  predicate LimitOrder(isSellBook: bool, a: Order, b: Order) {
    if isSellBook then a.limitPrice <= b.limitPrice else a.limitPrice >= b.limitPrice
  }

  /** One side of the batch, most easily satisfied limits first. */
  function Candidates(batch: seq<Order>, isSellBook: bool): seq<Order> {
    Sort(Filter(batch, (o: Order) => o.side == isSellBook),
         (a: Order, b: Order) => LimitOrder(isSellBook, a, b))
  }

  function Satisfied(original: seq<Order>, isSellBook: bool, p: nat): seq<Order> {
    Filter(original, o => LimitOk(o, isSellBook, p))
  }

  /** The AMM price of routing a gross one-sided volume; None when it cannot be routed. */
  function RealizedPrice(pool: Pool, isSellBook: bool, sumIn: nat): Result<Option<nat>> {
    if AfterFee(sumIn) == 0 then Ok(None)
    else
      var swap :- RouteNet(pool, if isSellBook then 0 - sumIn else sumIn, SCALE);
      if swap.saturated || (if isSellBook then swap.ammAOut == 0 else swap.ammBOut == 0) then Ok(None)
      else if isSellBook then Ok(Some(Ratio(swap.ammAOut, AfterFee(sumIn))))
      else Ok(Some(Ratio(AfterFee(sumIn), swap.ammBOut)))
  }

  function Refine(pool: Pool, original: seq<Order>, isSellBook: bool,
                  current: seq<Order>, seen: set<nat>, passes: nat): Result<SearchResult>
    decreases passes
  {
    if passes == 0 then Ok(PassesExhausted)
    else if |current| == 0 then Ok(EmptySide)
    else
      var realized :- RealizedPrice(pool, isSellBook, TotalIn(current));
      match realized
      case None => Ok(Unroutable)
      case Some(p) =>
        var next := Satisfied(original, isSellBook, p);
        if |next| == |current| then Ok(Found(p, FixedPointReached))
        else if |next| in seen then Ok(Oscillates)
        else Refine(pool, original, isSellBook, next, seen + {|next|}, passes - 1)
  }

  function OneSided(pool: Pool, batch: seq<Order>, isSellBook: bool): Result<SearchResult> {
    var original := Candidates(batch, isSellBook);
    if |original| == 0 then Ok(EmptySide)
    else Refine(pool, original, isSellBook, original, {|original|}, |original| + 2)
  }

  /** The whole search. Every outcome but `Found` skips the epoch. */
  function FindPrice(pool: Pool, batch: seq<Order>): Result<SearchResult> {
    match Band(pool.buckets)
    case None => Ok(NoFundedBucket)
    case Some(band) =>
      if HasSide(batch, false) != HasSide(batch, true) then
        OneSided(pool, batch, HasSide(batch, true))
      else
        var lo, hi := LowStart(band), HighStart(band);
        var loP :- ProbeAt(pool, batch, lo);
        var hiP :- ProbeAt(pool, batch, hi);
        if loP.Gap? || hiP.Gap? then Ok(BookGap)
        else if !LowSide(loP) || !HighSide(hiP) then Ok(NoBracket)
        else Bisect(pool, batch, lo, hi, MAX_ITERS)
  }

  // --------------------------------------------------------------- the loops

  method SumAmounts(orders: seq<Order>) returns (sum: nat)
    ensures sum == TotalIn(orders)
  {
    sum := 0;
    for i := 0 to |orders|
      invariant sum == SumOver(orders[..i], AmountInOf)
    {
      sum := sum + orders[i].amountIn;
      SumTake(orders, i, AmountInOf);
    }
    assert orders[..|orders|] == orders;
  }

  method SumField(deltas: seq<Delta>, up: bool) returns (sum: int)
    ensures sum == SumOver(deltas, if up then ASub else BSub)
  {
    sum := 0;
    for i := 0 to |deltas|
      invariant sum == SumOver(deltas[..i], if up then ASub else BSub)
    {
      sum := sum + (if up then deltas[i].aSub else deltas[i].bSub);
      SumTake(deltas, i, if up then ASub else BSub);
    }
    assert deltas[..|deltas|] == deltas;
  }

  method BucketNetSwap(pool: Pool, netA: int, p: nat) returns (r: Result<NetSwap>)
    ensures r == RouteNet(pool, netA, p)
  {
    hide TraceSwap;
    if netA == 0 {
      return Ok(Idle(pool, p));
    }
    var inB := 0;
    if netA < 0 {
      var sized := MulDiv(-netA, SCALE, p);
      if sized.Err? {
        return Err(sized.error);
      }
      inB := sized.value;
    }
    var trace := TraceBucketSwap(pool, if netA > 0 then netA else 0, inB);
    if trace.Err? {
      return if Infeasible(trace.error) then Ok(Saturated(pool)) else Err(trace.error);
    }
    var t := trace.value;
    var out := SumField(t.deltas, netA < 0);
    if netA > 0 {
      return Ok(NetSwap(t.newReserveA, t.newReserveB, Ratio(netA, out), netA, 0, 0, out, false, Some(t)));
    } else {
      return Ok(NetSwap(t.newReserveA, t.newReserveB, Ratio(out, inB), 0, out, inB, 0, false, Some(t)));
    }
  }

  method ClearingAt(pool: Pool, batch: seq<Order>, p: nat) returns (r: Result<PriceEval>)
    ensures r == EvalAt(pool, batch, p)
  {
    hide RouteNet;
    var eligibleBuys, eligibleSells := Buys(batch, p), Sells(batch, p);
    var sumAIn := SumAmounts(eligibleBuys);
    var sumBIn := SumAmounts(eligibleSells);
    var netA := sumAIn - sumBIn * p / SCALE;
    var swap := BucketNetSwap(pool, netA, p);
    if swap.Err? {
      return Err(swap.error);
    }
    return Ok(PriceEval(netA, swap.value, eligibleBuys, eligibleSells));
  }

  method ProbePrice(pool: Pool, batch: seq<Order>, p: nat) returns (r: Result<Probe>)
    ensures r == ProbeAt(pool, batch, p)
  {
    hide EvalAt;
    var ev := ClearingAt(pool, batch, p);
    if ev.Err? {
      return Err(ev.error);
    }
    return Ok(ProbeEval(batch, ev.value, p));
  }

  method SearchBand(bs: seq<Bucket>) returns (band: Option<(nat, nat)>)
    ensures band == Band(bs)
  {
    var bandLo: int, bandHi: int := -1, -1;
    for i := 0 to |bs|
      invariant match Band(bs[..i])
        case None => bandLo == bandHi == -1
        case Some(b) => bandLo == b.0 && bandHi == b.1
    {
      assert bs[..i + 1][..i] == bs[..i];
      if bs[i].state.liquidity > 0 {
        var pl, ph := PriceOf(bs[i].bounds.lower), PriceOf(bs[i].bounds.upper);
        if bandLo < 0 || pl < bandLo {
          bandLo := pl;
        }
        if bandHi < 0 || ph > bandHi {
          bandHi := ph;
        }
      }
    }
    assert bs[..|bs|] == bs;
    return if bandLo < 0 then None else Some((bandLo, bandHi));
  }

  method SettleOnEndpoint(pool: Pool, batch: seq<Order>, lo: nat, hi: nat) returns (r: Result<SearchResult>)
    ensures r == Settle(pool, batch, lo, hi)
  {
    hide ProbeAt;
    var atLo := ProbePrice(pool, batch, lo);
    if atLo.Err? {
      return Err(atLo.error);
    }
    if atLo.value.Residual? {
      return Ok(Found(lo, Endpoint));
    }
    var atHi := ProbePrice(pool, batch, hi);
    if atHi.Err? {
      return Err(atHi.error);
    }
    return Ok(if atHi.value.Residual? then Found(hi, Endpoint) else NoEndpoint);
  }

  method FindClearingPrice(pool: Pool, batch: seq<Order>) returns (r: Result<SearchResult>)
    ensures r == FindPrice(pool, batch)
  {
    hide ProbeAt, OneSided, Band, Settle;
    var band := SearchBand(pool.buckets);
    if band.None? {
      return Ok(NoFundedBucket);
    }
    var lo, hi := LowStart(band.value), HighStart(band.value);
    var hasBuys, hasSells := HasSide(batch, false), HasSide(batch, true);
    if hasBuys != hasSells {
      r := OneSidedClearingPrice(pool, batch, hasSells);
      return;
    }
    var loP := ProbePrice(pool, batch, lo);
    if loP.Err? {
      return Err(loP.error);
    }
    var hiP := ProbePrice(pool, batch, hi);
    if hiP.Err? {
      return Err(hiP.error);
    }
    if loP.value.Gap? || hiP.value.Gap? {
      return Ok(BookGap);
    }
    if !LowSide(loP.value) || !HighSide(hiP.value) {
      return Ok(NoBracket);
    }
    for i := 0 to MAX_ITERS
      invariant FindPrice(pool, batch) == Bisect(pool, batch, lo, hi, MAX_ITERS - i)
    {
      var mid := (lo + hi) / 2;
      var probe := ProbePrice(pool, batch, mid);
      if probe.Err? {
        return Err(probe.error);
      }
      var m := probe.value;
      if m.Gap? {
        return Ok(BookGap);
      }
      if Close(m) {
        return Ok(Found(mid, WithinTolerance));
      }
      if RaisesLow(m) {
        lo := mid;
      } else {
        hi := mid;
      }
      if hi <= lo + 1 {
        r := SettleOnEndpoint(pool, batch, lo, hi);
        return;
      }
    }
    return Ok(NotConverged);
  }

  method OneSidedClearingPrice(pool: Pool, batch: seq<Order>, isSellBook: bool)
    returns (r: Result<SearchResult>)
    ensures r == OneSided(pool, batch, isSellBook)
  {
    hide RouteNet, Candidates, Satisfied;
    var original := Candidates(batch, isSellBook);
    if |original| == 0 {
      return Ok(EmptySide);
    }
    var current := original;
    var seenSizes: set<nat> := {|original|};
    for pass := 0 to |original| + 2
      invariant OneSided(pool, batch, isSellBook) ==
        Refine(pool, original, isSellBook, current, seenSizes, |original| + 2 - pass)
    {
      if |current| == 0 {
        return Ok(EmptySide);
      }
      var sumIn := SumAmounts(current);
      var inAfterFee := AfterFee(sumIn);
      if inAfterFee <= 0 {
        return Ok(Unroutable);
      }
      var netA: int := sumIn;
      if isSellBook {
        netA := 0 - netA;
      }
      var routed := BucketNetSwap(pool, netA, SCALE);
      if routed.Err? {
        return Err(routed.error);
      }
      var swap := routed.value;
      if swap.saturated || (if isSellBook then swap.ammAOut == 0 else swap.ammBOut == 0) {
        return Ok(Unroutable);
      }
      var realizedP := if isSellBook then Ratio(swap.ammAOut, inAfterFee) else Ratio(inAfterFee, swap.ammBOut);
      var next := Satisfied(original, isSellBook, realizedP);
      if |next| == |current| {
        return Ok(Found(realizedP, FixedPointReached));
      }
      if |next| in seenSizes {
        return Ok(Oscillates);
      }
      seenSizes := seenSizes + {|next|};
      current := next;
    }
    return Ok(PassesExhausted);
  }
}
