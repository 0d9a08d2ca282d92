/** binance.service.ts: the quantity and fee arithmetic around the two market
    orders. The price lookup and the order calls are oracle parameters: `None`
    means the call threw. */
module BinanceService {
  import opened Wrappers
  import opened Records
  import opened FeeConst
  import opened BinanceHelper
  import opened Strings

  /** A token price in IDR, as getTokenToIdrPrice returns it. */
  type Price = p: real | p > 0.0 witness 1.0

  datatype ExchangeError =
    | RoundFailed(cause: RoundError)   // roundToBinanceStep threw
    | PriceUnavailable                 // getTokenToIdrPrice threw
    | OrderFailed                      // marketBuy / marketSell threw
    | MissingFee                       // INTERNAL_FEES.OPERATIONAL_TO_INDODAX undefined

  datatype BuyReceipt = BuyReceipt(cexTxId: string, tokenAmount: real)
  datatype SellReceipt = SellReceipt(cexTxId: string, idrAmount: int)

  function Round(amount: real, token: TokenType): Result<real, ExchangeError> {
    match RoundToBinanceStep(amount, token)
    case Ok(q) => Ok(q)
    case Err(e) => Err(RoundFailed(e))
  }

  function Max(a: real, b: real): real {
    if a >= b then a else b
  }

  /** The quantity bought for `idrAmount` IDR at `price`. */
  function BuyQuantity(token: TokenType, idrAmount: int, price: Price): Result<real, ExchangeError> {
    Round(idrAmount as real / price, token)
  }

  /** Whether buyTokenFromBinance reaches marketBuy: the price was obtained and
      the quantity passed the minimum. */
  predicate BuyPlacesOrder(token: TokenType, idrAmount: int, price: Option<Price>) {
    price.Some? && BuyQuantity(token, idrAmount, price.value).Ok?
  }

  /** buyTokenFromBinance(token, idrAmount). */
  function BuyTokenFromBinance(token: TokenType, idrAmount: int, price: Option<Price>, order: Option<nat>)
    : (r: Result<BuyReceipt, ExchangeError>)
    ensures r.Ok? <==> BuyPlacesOrder(token, idrAmount, price) && order.Some?
    ensures r.Ok? ==>
      var q := r.value.tokenAmount;
      q >= MinQty(token) && OnStep(q, token) && q <= idrAmount as real / price.value
      && idrAmount as real / price.value - q < Step(token)
    ensures r.Ok? ==> r.value.cexTxId == Decimal(order.value) && r.value.cexTxId != ""
    ensures price.Some? && idrAmount as real / price.value < MinQty(token) ==> r.Err? && r.error.RoundFailed?
  {
    match price
    case None => Err(PriceUnavailable)
    case Some(p) =>
      RoundSucceedsIff(idrAmount as real / p, token);
      match BuyQuantity(token, idrAmount, p)
      case Err(e) => Err(e)
      case Ok(q) =>
        RoundBounds(idrAmount as real / p, token);
        match order
        case None => Err(OrderFailed)
        case Some(orderId) => Ok(BuyReceipt(Decimal(orderId), q))
  }

  /** The fee amounts sellTokenFromBinance deducts, in token units, and the quantity it sells. */
  datatype SellPlan = SellPlan(tolerance: real, platformFee: real, indodaxFee: real, quantity: real)

  /** `Math.max(roundToBinanceStep(pct * amount), fix)`: the rounding throws
      before max() can fall back on the fixed fee. */
  function FeeWithFloor(token: TokenType, pct: real, amount: real, fix: real): Result<real, ExchangeError> {
    match Round(pct * amount, token)
    case Err(e) => Err(e)
    case Ok(part) => Ok(Max(part, fix))
  }

  /** The cascade of sellTokenFromBinance: tolerance, platform fee, exchange fee
      on what is left, then the sold quantity, each rounded to the lot step. */
  function SellCascade(token: TokenType, amount: real, c: TokenConstants, s: Sharing)
    : Result<SellPlan, ExchangeError>
  {
    match FeeWithFloor(token, c.withdraw.toleranceSlippagePercent, amount, c.withdraw.toleranceSlippageFix)
    case Err(e) => Err(e)
    case Ok(tolerance) =>
      match FeeWithFloor(token, s.platformFeePercent, amount, c.withdraw.platformFeeFix)
      case Err(e) => Err(e)
      case Ok(platformFee) =>
        match c.internalFees.operationalToIndodax
        case None => Err(MissingFee)
        case Some(opFee) =>
          SellRest(token, amount, tolerance, platformFee, opFee, s.indodaxFeePercent + c.withdraw.taxPercent)
  }

  /** The exchange fee on what the first two fees leave, then the sold quantity. */
  function SellRest(token: TokenType, amount: real, tolerance: real, platformFee: real, opFee: real,
                    indodaxPct: real): Result<SellPlan, ExchangeError>
  {
    match Round(indodaxPct * (amount - tolerance - platformFee - opFee), token)
    case Err(e) => Err(e)
    case Ok(indodaxFee) =>
      match Round(amount - opFee - indodaxFee - platformFee - tolerance, token)
      case Err(e) => Err(e)
      case Ok(quantity) => Ok(SellPlan(tolerance, platformFee, indodaxFee, quantity))
  }

  lemma FeeWithFloorBounds(token: TokenType, pct: real, amount: real, fix: real)
    ensures FeeWithFloor(token, pct, amount, fix).Ok? <==> pct * amount >= MinQty(token)
    ensures FeeWithFloor(token, pct, amount, fix).Ok? ==>
      FeeWithFloor(token, pct, amount, fix).value >= fix
      && FeeWithFloor(token, pct, amount, fix).value >= MinQty(token)
  {
    RoundSucceedsIff(pct * amount, token);
    if pct * amount >= MinQty(token) {
      RoundBounds(pct * amount, token);
    }
  }

  lemma SellRestBounds(token: TokenType, amount: real, tolerance: real, platformFee: real, opFee: real,
                       indodaxPct: real)
    requires SellRest(token, amount, tolerance, platformFee, opFee, indodaxPct).Ok?
    ensures var plan := SellRest(token, amount, tolerance, platformFee, opFee, indodaxPct).value;
      && plan.tolerance == tolerance && plan.platformFee == platformFee
      && plan.indodaxFee >= MinQty(token)
      && plan.quantity >= MinQty(token) && OnStep(plan.quantity, token)
      && plan.quantity <= amount - opFee - plan.indodaxFee - platformFee - tolerance
  {
    var x := indodaxPct * (amount - tolerance - platformFee - opFee);
    RoundBounds(x, token);
    var indodaxFee := Round(x, token).value;
    RoundBounds(amount - opFee - indodaxFee - platformFee - tolerance, token);
  }

  /** The IDR value of a sold quantity at `price`, less the gateway fee. */
  function Proceeds(quantity: real, price: Price, fee: int): int {
    (quantity * price).Floor - fee
  }

  /** sellTokenFromBinance(token, tokenAmount). */
  function SellTokenFromBinance(token: TokenType, amount: real, c: TokenConstants, s: Sharing,
                                price: Option<Price>, order: Option<nat>)
    : (r: Result<SellReceipt, ExchangeError>)
    ensures r.Ok? <==> SellCascade(token, amount, c, s).Ok? && price.Some? && order.Some?
    ensures r.Ok? ==>
      r.value.idrAmount
        == Proceeds(SellCascade(token, amount, c, s).value.quantity, price.value, c.withdraw.payoutGatewayFee)
      && r.value.cexTxId == Decimal(order.value) && r.value.cexTxId != ""
  {
    var plan :- SellCascade(token, amount, c, s);
    match price
    case None => Err(PriceUnavailable)
    case Some(p) =>
      var idrAmount := Proceeds(plan.quantity, p, c.withdraw.payoutGatewayFee);
      match order
      case None => Err(OrderFailed)
      case Some(orderId) => Ok(SellReceipt(Decimal(orderId), idrAmount))
  }

  /** Each deducted amount reaches its fixed floor and the exchange minimum,
      and the sold quantity is a whole number of steps at least the minimum. */
  lemma SellCascadeFloors(token: TokenType, amount: real, c: TokenConstants, s: Sharing)
    requires SellCascade(token, amount, c, s).Ok?
    ensures var plan := SellCascade(token, amount, c, s).value;
      && plan.tolerance >= c.withdraw.toleranceSlippageFix
      && plan.tolerance >= MinQty(token)
      && plan.platformFee >= c.withdraw.platformFeeFix
      && plan.platformFee >= MinQty(token)
      && plan.indodaxFee >= MinQty(token)
      && plan.quantity >= MinQty(token) && OnStep(plan.quantity, token)
      && plan.quantity <= amount - c.internalFees.operationalToIndodax.value
                          - plan.indodaxFee - plan.platformFee - plan.tolerance
  {
    FeeWithFloorBounds(token, c.withdraw.toleranceSlippagePercent, amount, c.withdraw.toleranceSlippageFix);
    FeeWithFloorBounds(token, s.platformFeePercent, amount, c.withdraw.platformFeeFix);
    var tolerance := FeeWithFloor(token, c.withdraw.toleranceSlippagePercent, amount, c.withdraw.toleranceSlippageFix).value;
    var platformFee := FeeWithFloor(token, s.platformFeePercent, amount, c.withdraw.platformFeeFix).value;
    SellRestBounds(token, amount, tolerance, platformFee, c.internalFees.operationalToIndodax.value,
                   s.indodaxFeePercent + c.withdraw.taxPercent);
  }

  /** A percentage part below the minimum quantity makes the whole sell throw,
      however large the fixed fee that max() would have chosen. */
  lemma SellNoFallbackToFix(token: TokenType, amount: real, c: TokenConstants, s: Sharing)
    requires c.withdraw.toleranceSlippagePercent * amount < MinQty(token)
          || s.platformFeePercent * amount < MinQty(token)
    ensures SellCascade(token, amount, c, s).Err?
    ensures SellCascade(token, amount, c, s).error.RoundFailed?
  {
    FeeWithFloorBounds(token, c.withdraw.toleranceSlippagePercent, amount, c.withdraw.toleranceSlippageFix);
    FeeWithFloorBounds(token, s.platformFeePercent, amount, c.withdraw.platformFeeFix);
  }

  /** With a non-negative operational fee the sold quantity is below the amount. */
  lemma SoldBelowAmount(token: TokenType, amount: real, c: TokenConstants, s: Sharing)
    requires SellCascade(token, amount, c, s).Ok?
    requires c.internalFees.operationalToIndodax.value >= 0.0
    ensures SellCascade(token, amount, c, s).value.quantity < amount
  {
    SellCascadeFloors(token, amount, c, s);
  }
}
