/** Scales, fee constants and the error kinds of the clearing engine. */
module FixedPoint {

  /** A price of 1.0. */
  const SCALE: nat := 1_000_000_000_000_000_000

  /** The 0.3% fee as the bucket tracer and the one-sided search size it. */
  const BUCKET_FEE_BPS: nat := 30
  const BUCKET_FEE_SCALE: nat := 10_000

  const MAX_ORDERS_PER_EPOCH: nat := 32
  const PRICE_BAND: nat := 100
  const TOLERANCE: nat := 1_000_000_000
  const MAX_ITERS: nat := 128
  const MAX_BUCKET_HOPS: nat := 4
  const MIN_FILL_AMOUNT_IN: nat := 100_000
  const MULTI_PAIR_MAX_ITERS: nat := 8

  datatype Option<+T> = None | Some(value: T)

  /** Everything the modelled code can throw. */
  datatype Error =
    | DivisionByZero
    | OutsideGrid
    | ExceededBuckets
    | TooManyBuckets
    | NoPool
    | LengthMismatch
    | BadPathLength
    | UnknownFillPool
    | BadTreeShape
    | TooManyFills
    | SentinelNonce
    | DuplicateFill
    | Unavailable

  datatype Result<+T> = Ok(value: T) | Err(error: Error) {
    predicate IsFailure() {
      Err?
    }

    function PropagateFailure<U>(): Result<U>
      requires Err?
    {
      Err(error)
    }

    function Extract(): T
      requires Ok?
    {
      value
    }
  }

  /** `a * b / denom` with the guard against a zero divisor. */
  function MulDiv(a: nat, b: nat, denom: nat): (r: Result<nat>)
    ensures denom == 0 <==> r == Err(DivisionByZero)
  {
    if denom == 0 then Err(DivisionByZero) else Ok(a * b / denom)
  }

  /** The swap input left after the fee is withheld. */
  function AfterFee(x: nat): (r: nat)
    ensures r <= x
  {
    x * (BUCKET_FEE_SCALE - BUCKET_FEE_BPS) / BUCKET_FEE_SCALE
  }

  lemma AfterFeeMono(x: nat, y: nat)
    requires x <= y
    ensures AfterFee(x) <= AfterFee(y)
  {}
}
