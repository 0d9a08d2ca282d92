/** The settlement arithmetic of action.service.ts: how a paid deposit is split
    into fees, the token amount the user and the referrer are credited, and the
    quantity and IDR amount of a withdrawal. Exact arithmetic throughout. */
module ActionFees {
  import opened Wrappers
  import opened Records
  import opened FeeConst
  import opened BinanceHelper
  import opened BinanceService
  import opened TransactionManagement

  function MaxInt(a: int, b: int): int {
    if a >= b then a else b
  }

  /** `Math.ceil(idr * pct)`: a percentage fee, rounded up. */
  function Part(idr: int, pct: real): int {
    Ceil(idr as real * pct)
  }

  /** The IDR amounts of lines 60-98. */
  datatype DepositQuote = DepositQuote(
    gatewayFee: int,
    tolerance: int,
    tax: int,
    indodaxFee: int,
    binanceFee: int,
    platformFee: int,
    idrTotal: int,     // what is spent on the exchange
    idrUser: int,      // the user's share of it, before on-chain fees
    idrRef: int)       // the referral reward

  /** The deposit split: the payment is exactly the purchase amount plus the
      gateway, exchange and tax fees, and the user's share is the purchase
      amount less the platform fee and the slippage tolerance. */
  function QuoteDeposit(idr: int, pm: string, d: DepositFees, s: Sharing, r: Referral): (q: DepositQuote)
    ensures q.idrTotal + q.gatewayFee + q.indodaxFee + q.binanceFee + q.tax == idr
    ensures q.idrUser + q.platformFee + q.tolerance == q.idrTotal
    ensures q.indodaxFee >= s.indodaxFeeFix && q.binanceFee >= s.binanceFeeFix
    ensures q.platformFee >= d.platformFeeFix && q.tolerance >= d.toleranceSlippageFix
    ensures q.idrRef >= r.rewardMin
  {
    var gatewayFee := if pm == "QRIS" then Part(idr, d.paymentGatewayFeePercent) else d.paymentGatewayFeeFix;
    var tolerance := MaxInt(Part(idr, d.toleranceSlippagePercent), d.toleranceSlippageFix);
    var tax := Ceil(d.taxPercent * (idr - gatewayFee) as real);
    var indodaxFee := MaxInt(Part(idr, s.indodaxFeePercent), s.indodaxFeeFix);
    var binanceFee := MaxInt(Part(idr, s.binanceFeePercent), s.binanceFeeFix);
    var platformFee := MaxInt(Part(idr, s.platformFeePercent), d.platformFeeFix);
    var idrTotal := idr - gatewayFee - indodaxFee - binanceFee - tax;
    var idrUser := idrTotal - platformFee - tolerance;
    var idrRef := MaxInt(r.rewardMin, (idr as real * r.rewardPercent).Floor);
    DepositQuote(gatewayFee, tolerance, tax, indodaxFee, binanceFee, platformFee, idrTotal, idrUser, idrRef)
  }

  /** Because the fees are rounded up separately, a larger payment can buy less:
      with 1% exchange fees and nothing else, 100 IDR spends 98 and 101 IDR spends 97. */
  lemma LargerDepositCanSpendLess()
    ensures var d := DepositFees(0.0, 0, 0.0, 0, 0.0, 0);
            var s := Sharing(0.01, 0, 0.01, 0, 0.0);
            var r := Referral(0, 0.0);
      && QuoteDeposit(100, "VA", d, s, r).idrTotal == 98
      && QuoteDeposit(101, "VA", d, s, r).idrTotal == 97
  {
    assert Ceil(100 as real * 0.01) == 1;
    assert Ceil(101 as real * 0.01) == 2;
    assert Ceil(0.0 * 100 as real) == 0;
    assert Ceil(0.0 * 101 as real) == 0;
  }

  // ---------------------------------------------------------- token amounts

  /** One internal transfer fee, `max(round(MAX * idr / 20000000), MIN)`; the
      rounding throws before max() can fall back on MIN. */
  function BandFee(band: FeeBand, idr: int, token: TokenType): (r: Result<real, RoundError>)
    ensures r.Ok? ==> r.value >= band.min && r.value >= MinQty(token)
    ensures r.Ok? <==> band.max * idr as real / 20000000.0 >= MinQty(token)
  {
    RoundSucceedsIff(band.max * idr as real / 20000000.0, token);
    match RoundToBinanceStep(band.max * idr as real / 20000000.0, token)
    case Err(e) => Err(e)
    case Ok(x) =>
      RoundBounds(band.max * idr as real / 20000000.0, token);
      Ok(Max(x, band.min))
  }

  /** An INTERNAL_FEES band that is undefined deducts nothing. */
  function OptionalBandFee(band: Option<FeeBand>, idr: int, token: TokenType): (r: Result<real, RoundError>)
    ensures band.None? ==> r == Ok(0.0)
    ensures band.Some? ==> r == BandFee(band.value, idr, token)
  {
    match band
    case None => Ok(0.0)
    case Some(b) => BandFee(b, idr, token)
  }

  /** The on-chain fees of lines 107-143, summed. */
  function OnChainFees(f: InternalFees, idr: int, token: TokenType): (r: Result<real, RoundError>)
    ensures r.Ok? && (f.operationalToUser.Some? ==> f.operationalToUser.value >= 0.0) ==> r.value >= 0.0
    ensures r.Ok? <==>
      && OptionalBandFee(f.binanceToLegacy, idr, token).Ok?
      && OptionalBandFee(f.legacyToSegwit, idr, token).Ok?
      && OptionalBandFee(f.segwitToOperational, idr, token).Ok?
  {
    var f1 :- OptionalBandFee(f.binanceToLegacy, idr, token);
    var f2 :- OptionalBandFee(f.legacyToSegwit, idr, token);
    var f3 :- OptionalBandFee(f.segwitToOperational, idr, token);
    Ok(f1 + f2 + f3 + f.operationalToUser.GetOr(0.0))
  }

  /** `part / whole * tokenA`, and 0 for a zero whole. */
  function Share(part: int, whole: int, tokenA: real): real {
    if whole == 0 then 0.0 else (part as real / whole as real) * tokenA
  }

  /** A share of no more than the whole is no more than the amount bought. */
  lemma ShareAtMost(part: int, whole: int, tokenA: real)
    requires 0 <= part <= whole && tokenA >= 0.0
    ensures 0.0 <= Share(part, whole, tokenA) <= tokenA
  {
    if whole != 0 {
      var ratio := part as real / whole as real;
      assert 0.0 <= ratio <= 1.0;
      assert ratio * tokenA <= 1.0 * tokenA;
    }
  }

  /** tokenUser (lines 103-149): the user's IDR share of the bought amount,
      less the on-chain fees, rounded down to the lot step. */
  function TokenUser(q: DepositQuote, tokenA: real, f: InternalFees, idr: int, token: TokenType)
    : Result<real, RoundError>
  {
    var fees :- OnChainFees(f, idr, token);
    RoundToBinanceStep(Share(q.idrUser, q.idrTotal, tokenA) - fees, token)
  }

  /** The user is never credited more than was bought, as long as the fees
      and the on-chain fee for the last hop are not negative. */
  lemma TokenUserWithinBought(q: DepositQuote, tokenA: real, f: InternalFees, idr: int, token: TokenType)
    requires TokenUser(q, tokenA, f, idr, token).Ok?
    requires 0 <= q.idrUser <= q.idrTotal && tokenA >= 0.0
    requires f.operationalToUser.Some? ==> f.operationalToUser.value >= 0.0
    ensures var u := TokenUser(q, tokenA, f, idr, token).value;
      MinQty(token) <= u <= tokenA && OnStep(u, token)
  {
    var fees := OnChainFees(f, idr, token).value;
    ShareAtMost(q.idrUser, q.idrTotal, tokenA);
    RoundBounds(Share(q.idrUser, q.idrTotal, tokenA) - fees, token);
  }

  // ----------------------------------------------------------------- referral

  /** Who, if anyone, is rewarded for a deposit, and the refAddress it keeps. */
  datatype RefOutcome = RefOutcome(refAddress: Option<string>, rewarded: bool)

  /** Lines 151-189: the deposit's own referrer, or else one recovered from the
      wallet's oldest earlier paid deposit when that referrer is a lifetime
      referrer. The referrer is rewarded on the wallet's first paid deposit,
      and on every deposit when a lifetime referrer; otherwise it is cleared. */
  function ResolveReferral(own: Option<string>, first: Option<Transaction>, lifetime: set<string>)
    : (o: RefOutcome)
    ensures o.rewarded <==>
      || (Present(own) && (first.None? || own.value in lifetime))
      || (!Present(own) && first.Some? && Present(first.value.refAddress)
          && first.value.refAddress.value in lifetime)
    ensures o.rewarded ==>
      && Present(o.refAddress)
      && o.refAddress == (if Present(own) then own else first.value.refAddress)
    ensures !o.rewarded ==> !Present(o.refAddress)
    ensures !o.rewarded && !Present(own) ==> o.refAddress == own
  {
    var recovered := if first.Some? then first.value.refAddress else None;
    var ref := if !Present(own) && Present(recovered) && recovered.value in lifetime then recovered else own;
    var isLifetime := Present(ref) && ref.value in lifetime;
    var isFirstPaidDeposit := first.None?;
    if Present(ref) && (isFirstPaidDeposit || isLifetime) then RefOutcome(ref, true)
    else if Present(ref) then RefOutcome(None, false)
    else RefOutcome(ref, false)
  }

  /** An ordinary referrer is rewarded once per wallet: never when the wallet
      already has a paid deposit. */
  lemma OrdinaryReferrerRewardedOnce(own: Option<string>, first: Option<Transaction>, lifetime: set<string>)
    requires first.Some?
    requires Present(own) ==> own.value !in lifetime
    requires Present(first.value.refAddress) ==> first.value.refAddress.value !in lifetime
    ensures !ResolveReferral(own, first, lifetime).rewarded
    ensures !Present(ResolveReferral(own, first, lifetime).refAddress)
  {
  }

  // -------------------------------------------------------------- deposit leg

  datatype SettleError = ExchangeFailed(exchange: ExchangeError) | RoundingFailed(rounding: RoundError)

  function Rounded(r: Result<real, RoundError>): Result<real, SettleError> {
    match r
    case Ok(x) => Ok(x)
    case Err(e) => Err(RoundingFailed(e))
  }

  /** The lookup of lines 154-164: the wallet's other DEPOSIT rows that are
      PAID, PENDING or COMPLETED, oldest first. */
  function FirstPaidQuery(tx: Transaction): Option<FindArgs> {
    Some(FindArgs(Some(NoFilter.(id := Some(IdNot(tx.id)), walletAddress := Some(tx.walletAddress),
                                 txType := Some(Deposit), statusIn := Some({Paid, Pending, Completed}))),
                  true))
  }

  /** Whether processSinglePaidTransaction still settles a deposit (line 56). */
  predicate DepositUnsettled(tx: Transaction) {
    !Present(tx.cexTxId) || !PresentReal(tx.tokenAmount)
  }

  /** The update of lines 191-196 for a deposit, given the price and order
      replies of the exchange and the wallet's first paid deposit; any error
      means no update. */
  function DepositPatch(tx: Transaction, first: Option<Transaction>, cfg: Config,
                        price: Option<Price>, order: Option<nat>): (r: Result<Patch, SettleError>)
    ensures r.Ok? ==>
      && r.value.status.Keep? && r.value.idrAmount.Keep? && r.value.xenditTxId.Keep?
      && r.value.txHash.Keep? && r.value.paymentDetails.Keep?
  {
    var c := Constants(cfg, tx.tokenType);
    var idr := tx.idrAmount.GetOr(0);
    var pm := if tx.paymentDetails.Some? then Field(tx.paymentDetails.value, "method") else "";
    var q := QuoteDeposit(idr, pm, c.deposit, cfg.sharing, cfg.referral);
    match BuyTokenFromBinance(tx.tokenType, q.idrTotal, price, order)
    case Err(e) => Err(ExchangeFailed(e))
    case Ok(receipt) =>
      var tokenUser :- Rounded(TokenUser(q, receipt.tokenAmount, c.internalFees, idr, tx.tokenType));
      var o := ResolveReferral(tx.refAddress, first, cfg.lifetimeReferrers);
      var refAmount :-
        if o.rewarded then
          match Rounded(RoundToBinanceStep(Share(q.idrRef, q.idrTotal, receipt.tokenAmount), tx.tokenType))
          case Err(e) => Err(e)
          case Ok(x) => Ok(Some(x))
        else Ok(None);
      Ok(NoChange.(cexTxId := Put(Some(receipt.cexTxId)), tokenAmount := Put(Some(tokenUser)),
                   refAddress := Put(o.refAddress), refAmount := Put(refAmount)))
  }

  /** The deposit leg gets as far as the referral lookup of line 152: the
      purchase went through and the user's token amount rounded. */
  predicate ReachesReferralLookup(tx: Transaction, cfg: Config, price: Option<Price>, order: Option<nat>) {
    var c := Constants(cfg, tx.tokenType);
    var idr := tx.idrAmount.GetOr(0);
    var pm := if tx.paymentDetails.Some? then Field(tx.paymentDetails.value, "method") else "";
    var q := QuoteDeposit(idr, pm, c.deposit, cfg.sharing, cfg.referral);
    match BuyTokenFromBinance(tx.tokenType, q.idrTotal, price, order)
    case Err(_) => false
    case Ok(receipt) => TokenUser(q, receipt.tokenAmount, c.internalFees, idr, tx.tokenType).Ok?
  }

  /** A settled deposit records an exchange order and a positive token amount,
      so the next run leaves it alone; the purchase was for a positive IDR
      amount; and a referral amount is recorded exactly for a rewarded referrer. */
  lemma DepositSettledOnce(tx: Transaction, first: Option<Transaction>, cfg: Config,
                           price: Option<Price>, order: Option<nat>)
    requires DepositPatch(tx, first, cfg, price, order).Ok?
    ensures var u := Apply(tx, DepositPatch(tx, first, cfg, price, order).value);
      && !DepositUnsettled(u)
      && u.tokenAmount.value >= MinQty(tx.tokenType) && OnStep(u.tokenAmount.value, tx.tokenType)
      && (u.refAmount.Some? <==> ResolveReferral(tx.refAddress, first, cfg.lifetimeReferrers).rewarded)
      && u.refAddress == ResolveReferral(tx.refAddress, first, cfg.lifetimeReferrers).refAddress
    ensures var c := Constants(cfg, tx.tokenType);
      var pm := if tx.paymentDetails.Some? then Field(tx.paymentDetails.value, "method") else "";
      QuoteDeposit(tx.idrAmount.GetOr(0), pm, c.deposit, cfg.sharing, cfg.referral).idrTotal > 0
  {
    var c := Constants(cfg, tx.tokenType);
    var idr := tx.idrAmount.GetOr(0);
    var pm := if tx.paymentDetails.Some? then Field(tx.paymentDetails.value, "method") else "";
    var q := QuoteDeposit(idr, pm, c.deposit, cfg.sharing, cfg.referral);
    var receipt := BuyTokenFromBinance(tx.tokenType, q.idrTotal, price, order).value;
    RoundBounds(Share(q.idrUser, q.idrTotal, receipt.tokenAmount) - OnChainFees(c.internalFees, idr, tx.tokenType).value,
                tx.tokenType);
    BoughtMeansPositive(q.idrTotal, price.value, receipt.tokenAmount, tx.tokenType);
  }

  /** A purchase that passed the exchange minimum was for a positive amount. */
  lemma BoughtMeansPositive(idr: int, price: Price, bought: real, token: TokenType)
    requires MinQty(token) <= bought <= idr as real / price
    ensures idr > 0
  {
  }

  // ----------------------------------------------------------- withdrawal leg

  /** The token amounts of lines 204-233. */
  datatype PayoutPlan = PayoutPlan(tolerance: real, platformFee: real, opFee: real, indodaxFee: real,
                                   binanceAmount: real)

  /** The withdrawal cascade: tolerance and platform fee with their fixed
      floors, the exchange fee on what is left, and the quantity to sell. An
      undefined operational fee counts as 0 here. */
  function WithdrawalPlan(amount: real, token: TokenType, c: TokenConstants, s: Sharing)
    : (r: Result<PayoutPlan, RoundError>)
    ensures r.Ok? ==>
      && r.value.tolerance >= c.withdraw.toleranceSlippageFix
      && r.value.platformFee >= c.withdraw.platformFeeFix
      && r.value.opFee == c.internalFees.operationalToIndodax.GetOr(0.0)
      && r.value.binanceAmount >= MinQty(token) && OnStep(r.value.binanceAmount, token)
      && r.value.binanceAmount
           <= amount - r.value.opFee - r.value.indodaxFee - r.value.platformFee - r.value.tolerance
  {
    var t :- RoundToBinanceStep(c.withdraw.toleranceSlippagePercent * amount, token);
    var tolerance := Max(t, c.withdraw.toleranceSlippageFix);
    var p :- RoundToBinanceStep(c.withdraw.platformFeePercent * amount, token);
    var platformFee := Max(p, c.withdraw.platformFeeFix);
    var opFee := c.internalFees.operationalToIndodax.GetOr(0.0);
    var indodaxFee :- RoundToBinanceStep((s.indodaxFeePercent + c.withdraw.taxPercent)
                                         * (amount - tolerance - platformFee - opFee), token);
    var binanceAmount :- RoundToBinanceStep(amount - opFee - indodaxFee - platformFee - tolerance, token);
    RoundBounds(amount - opFee - indodaxFee - platformFee - tolerance, token);
    Ok(PayoutPlan(tolerance, platformFee, opFee, indodaxFee, binanceAmount))
  }

  /** Line 236: the IDR the user is paid, from the quantity to sell. */
  function PayoutIdr(plan: PayoutPlan, price: Price, c: TokenConstants): int {
    Proceeds(plan.binanceAmount, price, c.withdraw.payoutGatewayFee)
  }

  /** The quantity passed to sellTokenFromBinance is already net of the fees,
      and that call deducts its own cascade again: the exchange sells strictly
      less than the quantity the payout is priced on, so at one price the
      recorded payout is at least the proceeds the sell reports. */
  lemma SellDeductsFeesAgain(plan: PayoutPlan, token: TokenType, c: TokenConstants, s: Sharing,
                             price: Price, order: nat)
    requires c.internalFees.operationalToIndodax.Some? && c.internalFees.operationalToIndodax.value >= 0.0
    requires SellCascade(token, plan.binanceAmount, c, s).Ok?
    ensures SellCascade(token, plan.binanceAmount, c, s).value.quantity < plan.binanceAmount
    ensures SellTokenFromBinance(token, plan.binanceAmount, c, s, Some(price), Some(order)).value.idrAmount
         <= PayoutIdr(plan, price, c)
  {
    SoldBelowAmount(token, plan.binanceAmount, c, s);
    ProceedsBelowPayout(plan, token, c, s, price, order);
  }

  /** At one price, the proceeds of selling the plan's quantity are at most
      the payout priced on that quantity. */
  lemma ProceedsBelowPayout(plan: PayoutPlan, token: TokenType, c: TokenConstants, s: Sharing,
                            price: Price, order: nat)
    requires c.internalFees.operationalToIndodax.Some? && c.internalFees.operationalToIndodax.value >= 0.0
    requires SellCascade(token, plan.binanceAmount, c, s).Ok?
    ensures SellTokenFromBinance(token, plan.binanceAmount, c, s, Some(price), Some(order)).value.idrAmount
         <= PayoutIdr(plan, price, c)
  {
    SoldBelowAmount(token, plan.binanceAmount, c, s);
    ProceedsMonotone(SellCascade(token, plan.binanceAmount, c, s).value.quantity, plan.binanceAmount,
                     price, c.withdraw.payoutGatewayFee);
  }

  /** Selling less at one price never brings in more. */
  lemma ProceedsMonotone(sold: real, amount: real, price: Price, fee: int)
    requires sold <= amount
    ensures Proceeds(sold, price, fee) <= Proceeds(amount, price, fee)
  {
    assert sold * price <= amount * price;
  }

  /** Whether processSinglePaidTransaction still sells a withdrawal (line 203). */
  predicate WithdrawalUnsold(tx: Transaction) {
    !Present(tx.cexTxId) || !PresentInt(tx.idrAmount)
  }

  /** The update of lines 244-247 for a withdrawal: the plan, the price for the
      payout, then the sell with its own price and order replies. */
  function WithdrawalPatch(tx: Transaction, cfg: Config, price: Option<Price>,
                           sellPrice: Option<Price>, sellOrder: Option<nat>): (r: Result<Patch, SettleError>)
    ensures r.Ok? ==>
      && r == Ok(NoChange.(cexTxId := r.value.cexTxId, idrAmount := r.value.idrAmount))
      && r.value.cexTxId.Put? && Present(r.value.cexTxId.value)
      && price.Some? && sellPrice.Some? && sellOrder.Some?
      && WithdrawalPlan(tx.tokenAmount.GetOr(0.0), tx.tokenType, Constants(cfg, tx.tokenType), cfg.sharing).Ok?
      && var c := Constants(cfg, tx.tokenType);
         var plan := WithdrawalPlan(tx.tokenAmount.GetOr(0.0), tx.tokenType, c, cfg.sharing).value;
         r.value.idrAmount == Put(Some(PayoutIdr(plan, price.value, c)))
  {
    var c := Constants(cfg, tx.tokenType);
    match WithdrawalPlan(tx.tokenAmount.GetOr(0.0), tx.tokenType, c, cfg.sharing)
    case Err(e) => Err(RoundingFailed(e))
    case Ok(plan) =>
      match price
      case None => Err(ExchangeFailed(PriceUnavailable))
      case Some(p) =>
        match SellTokenFromBinance(tx.tokenType, plan.binanceAmount, c, cfg.sharing, sellPrice, sellOrder)
        case Err(e) => Err(ExchangeFailed(e))
        case Ok(receipt) =>
          Ok(NoChange.(cexTxId := Put(Some(receipt.cexTxId)), idrAmount := Put(Some(PayoutIdr(plan, p, c)))))
  }
}
