/** binance.helper.ts: rounding a token quantity down to the exchange's lot
    step, failing below the exchange's minimum quantity. Exact arithmetic. */
module BinanceHelper {
  import opened Wrappers
  import opened Records

  /** The lot step: whole units for HBAR, 0.00001 for every other token. */
  function Step(token: TokenType): real {
    if token == HBAR then 1.0 else 0.00001
  }

  /** The minimum lot quantity: 1 for HBAR, 0.00005 for every other token. */
  function MinQty(token: TokenType): real {
    if token == HBAR then 1.0 else 0.00005
  }

  /** x is a whole number of lot steps. */
  predicate OnStep(x: real, token: TokenType) {
    (x / Step(token)).Floor as real == x / Step(token)
  }

  /** `Math.floor(amount / step) * step`. */
  function FloorToStep(amount: real, token: TokenType): real {
    (amount / Step(token)).Floor as real * Step(token)
  }

  /** `Number(x.toFixed(6))` in exact arithmetic: x rounded to six decimals,
      halves away from zero. */
  function ToFixed6(x: real): real {
    if x < 0.0 then -RoundHalfUp6(-x) else RoundHalfUp6(x)
  }

  function RoundHalfUp6(x: real): real {
    (x * 1000000.0 + 0.5).Floor as real / 1000000.0
  }

  datatype RoundError = BelowMinimum(rounded: real, minQty: real)

  /** roundToBinanceStep(amount, token). Callers pass a third argument `true`,
      which the two-parameter function ignores. The final toFixed(6) turns out
      to change nothing: the result is the floored quantity itself. */
  function RoundToBinanceStep(amount: real, token: TokenType): (r: Result<real, RoundError>)
    ensures r.Ok? ==> r.value == FloorToStep(amount, token)
    ensures r.Err? ==> r.error.rounded == FloorToStep(amount, token)
    ensures r.Err? ==> r.error.rounded < MinQty(token) && r.error.minQty == MinQty(token)
  {
    var rounded := FloorToStep(amount, token);
    if rounded < MinQty(token) then Err(BelowMinimum(rounded, MinQty(token)))
    else
      FloorToStepBounds(amount, token);
      ToFixed6OnStep(rounded, token);
      Ok(ToFixed6(rounded))
  }

  /** toFixed(6) leaves a non-negative whole number of lot steps unchanged. */
  lemma ToFixed6OnStep(x: real, token: TokenType)
    requires OnStep(x, token)
    requires x >= 0.0
    ensures ToFixed6(x) == x
  {
    var k := (x / Step(token)).Floor;
    var n: int := if token == HBAR then k * 1000000 else k * 10;
    assert x == k as real * Step(token);
    assert x * 1000000.0 == n as real;
    assert (n as real + 0.5).Floor == n;
    assert RoundHalfUp6(x) == n as real / 1000000.0;
  }

  /** The floored quantity never exceeds the input and is less than one step below it. */
  lemma FloorToStepBounds(amount: real, token: TokenType)
    ensures FloorToStep(amount, token) <= amount
    ensures amount - FloorToStep(amount, token) < Step(token)
    ensures OnStep(FloorToStep(amount, token), token)
  {
    var k := (amount / Step(token)).Floor;
    assert k as real <= amount / Step(token) < k as real + 1.0;
    assert FloorToStep(amount, token) / Step(token) == k as real;
  }

  /** Every returned quantity lies in (amount - step, amount], is a whole
      number of steps and is at least the minimum. */
  lemma RoundBounds(amount: real, token: TokenType)
    requires RoundToBinanceStep(amount, token).Ok?
    ensures var q := RoundToBinanceStep(amount, token).value;
      q <= amount && amount - q < Step(token) && OnStep(q, token) && q >= MinQty(token)
  {
    FloorToStepBounds(amount, token);
  }

  /** Since the minimum is itself a whole number of steps, the call succeeds
      exactly when the unrounded amount reaches the minimum. */
  lemma RoundSucceedsIff(amount: real, token: TokenType)
    ensures RoundToBinanceStep(amount, token).Ok? <==> amount >= MinQty(token)
  {
    var k := (amount / Step(token)).Floor;
    assert k as real <= amount / Step(token) < k as real + 1.0;
    if token == HBAR {
      assert FloorToStep(amount, token) == k as real;
    } else {
      assert FloorToStep(amount, token) == k as real * 0.00001;
      assert MinQty(token) == 5.0 * 0.00001;
    }
  }

  /** Rounding an already rounded quantity gives it back. */
  lemma RoundIdempotent(amount: real, token: TokenType)
    requires RoundToBinanceStep(amount, token).Ok?
    ensures var q := RoundToBinanceStep(amount, token).value;
      RoundToBinanceStep(q, token) == Ok(q)
  {
    var q := RoundToBinanceStep(amount, token).value;
    RoundBounds(amount, token);
    var k := (q / Step(token)).Floor;
    assert q / Step(token) == k as real;
    assert FloorToStep(q, token) == k as real * Step(token) == q;
  }

  /** A larger input never rounds to a smaller quantity, and never fails
      where a smaller one succeeded. */
  lemma RoundMonotone(a: real, b: real, token: TokenType)
    requires a <= b
    requires RoundToBinanceStep(a, token).Ok?
    ensures RoundToBinanceStep(b, token).Ok?
    ensures RoundToBinanceStep(a, token).value <= RoundToBinanceStep(b, token).value
  {
    RoundSucceedsIff(a, token);
    RoundSucceedsIff(b, token);
    var ka := (a / Step(token)).Floor;
    var kb := (b / Step(token)).Floor;
    assert a / Step(token) <= b / Step(token);
    assert ka <= kb;
  }
}
