/** The Transaction row the settlement back end reads and writes (a Prisma
    model), with JavaScript truthiness for its nullable fields. */
module Records {
  import opened Wrappers

  type Id = string

  datatype TxType = Deposit | Withdrawal
  /** The token types the code refers to. */
  datatype TokenType = BTC | HBAR
  datatype Status = Waiting | Paid | Pending | Completed | Expired

  /** `paymentDetails` is an untyped JSON object; its string fields by key. */
  type Details = map<string, string>

  /** A key of a JSON object read as a string: an absent key reads as "" (falsy). */
  function Field(d: Details, key: string): string {
    if key in d then d[key] else ""
  }

  datatype Transaction = Transaction(
    id: Id,
    txType: TxType,
    tokenType: TokenType,
    status: Status,
    walletAddress: string,
    createdAt: int,               // milliseconds since the epoch
    idrAmount: Option<int>,
    tokenAmount: Option<real>,
    paymentDetails: Option<Details>,
    cexTxId: Option<string>,
    xenditTxId: Option<string>,
    txHash: Option<string>,
    refAddress: Option<string>,
    refAmount: Option<real>)

  /** An incoming transfer as both chain adapters report it; the timestamp is
      kept as milliseconds instead of an ISO string. */
  datatype Incoming = Incoming(txid: string, from: string, amount: real, confirmed: bool, timestampMs: int)

  /** The reply of one request to an outside service: its body, or `Failed`
      when the request threw. */
  datatype Fetch<+T> = Got(body: T) | Failed

  /** The largest time value a JavaScript Date accepts; beyond it toISOString throws. */
  const MaxDateMs: int := 8640000000000000

  /** `!!s` for a nullable string: set and not empty. */
  predicate Present(s: Option<string>) {
    s.Some? && s.value != ""
  }

  /** `!!n` for a nullable number: set and not zero. */
  predicate PresentInt(n: Option<int>) {
    n.Some? && n.value != 0
  }

  predicate PresentReal(n: Option<real>) {
    n.Some? && n.value != 0.0
  }

  /** `Math.ceil(x)`: the least integer not below x. */
  function Ceil(x: real): (c: int)
    ensures x <= c as real < x + 1.0
  {
    -((-x).Floor)
  }
}

/** The fee configuration (fee.const, common.const, limitations.const). Those
    files are not part of this model: every constant is a parameter. */
module FeeConst {
  import opened Wrappers
  import opened Records

  /** Deposit fees of one token, in IDR (percentages as fractions). */
  datatype DepositFees = DepositFees(
    paymentGatewayFeePercent: real,
    paymentGatewayFeeFix: int,
    toleranceSlippagePercent: real,
    toleranceSlippageFix: int,
    taxPercent: real,
    platformFeeFix: int)

  /** Withdrawal fees of one token: fixes in token units, the payout fee in IDR. */
  datatype WithdrawFees = WithdrawFees(
    toleranceSlippagePercent: real,
    toleranceSlippageFix: real,
    platformFeePercent: real,
    platformFeeFix: real,
    taxPercent: real,
    payoutGatewayFee: int)

  /** One internal-transfer fee in token units: `max(round(MAX * idr / 20000000), MIN)`. */
  datatype FeeBand = FeeBand(max: real, min: real)

  /** The optional INTERNAL_FEES entries of a token. */
  datatype InternalFees = InternalFees(
    binanceToLegacy: Option<FeeBand>,
    legacyToSegwit: Option<FeeBand>,
    segwitToOperational: Option<FeeBand>,
    operationalToUser: Option<real>,
    operationalToIndodax: Option<real>)

  datatype TokenConstants = TokenConstants(
    deposit: DepositFees,
    withdraw: WithdrawFees,
    internalFees: InternalFees)

  /** SHARING: exchange and platform shares common to all tokens. */
  datatype Sharing = Sharing(
    indodaxFeePercent: real,
    indodaxFeeFix: int,
    binanceFeePercent: real,
    binanceFeeFix: int,
    platformFeePercent: real)

  /** REFERRAL: the referral reward in IDR. */
  datatype Referral = Referral(rewardMin: int, rewardPercent: real)

  datatype Config = Config(
    btc: TokenConstants,
    hbar: TokenConstants,
    sharing: Sharing,
    referral: Referral,
    lifetimeReferrers: set<string>,
    maxTxAgeMs: int)

  /** TOKEN_CONSTANTS[token]. */
  function Constants(cfg: Config, token: TokenType): TokenConstants {
    match token
    case BTC => cfg.btc
    case HBAR => cfg.hbar
  }
}
