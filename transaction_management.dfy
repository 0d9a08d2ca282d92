/** transaction-management.service.ts: the Transaction store (a Prisma table,
    here a map from id to row owned by a class), the filters the rest of the
    code queries it with, the creation guard chain and the expiry sweep. */
module TransactionManagement {
  import opened Wrappers
  import opened Records
  import opened ValidateAddress

  // ---------------------------------------------------------------- filters

  datatype IdFilter = IdEquals(id: Id) | IdNot(id: Id)

  /** The subset of Prisma's `where` objects the code uses; `None` is an absent key. */
  datatype Where = Where(
    id: Option<IdFilter>,
    walletAddress: Option<string>,
    txType: Option<TxType>,
    statusIn: Option<set<Status>>,
    txHash: Option<string>,
    xenditTxIdNotNull: bool)

  const NoFilter: Where := Where(None, None, None, None, None, false)

  predicate Matches(w: Where, t: Transaction) {
    && (match w.id
        case None => true
        case Some(IdEquals(i)) => t.id == i
        case Some(IdNot(i)) => t.id != i)
    && (w.walletAddress.Some? ==> t.walletAddress == w.walletAddress.value)
    && (w.txType.Some? ==> t.txType == w.txType.value)
    && (w.statusIn.Some? ==> t.status in w.statusIn.value)
    && (w.txHash.Some? ==> t.txHash == w.txHash)
    && (w.xenditTxIdNotNull ==> t.xenditTxId.Some?)
  }

  /** The spread `{ ...a, ...b }` of two where objects: b's keys win. */
  function MergeWhere(a: Where, b: Where): Where {
    Where(
      if b.id.Some? then b.id else a.id,
      if b.walletAddress.Some? then b.walletAddress else a.walletAddress,
      if b.txType.Some? then b.txType else a.txType,
      if b.statusIn.Some? then b.statusIn else a.statusIn,
      if b.txHash.Some? then b.txHash else a.txHash,
      a.xenditTxIdNotNull || b.xenditTxIdNotNull)
  }

  /** The parts of findFirst's arguments the code uses: `where` (absent or
      present) and whether `orderBy: { createdAt: "asc" }` is given. */
  datatype FindArgs = FindArgs(where: Option<Where>, oldestFirst: bool)

  /** The filter getSingleTransactionByID hands to findFirst:
      `{ where: { id, ...(args?.where || {}) }, ...args }`. The trailing
      spread of `args` replaces the merged `where` whenever args has one. */
  function EffectiveWhere(id: Id, args: Option<FindArgs>): (w: Where)
    ensures args.Some? && args.value.where.Some? ==> w == args.value.where.value
    ensures args.None? || args.value.where.None? ==> w == NoFilter.(id := Some(IdEquals(id)))
  {
    var inner := MergeWhere(NoFilter.(id := Some(IdEquals(id))),
                            if args.Some? && args.value.where.Some? then args.value.where.value else NoFilter);
    if args.Some? && args.value.where.Some? then args.value.where.value else inner
  }

  /** With a `where` in args the id argument plays no part, so the callers
      that pass "" find rows whatever their id. */
  lemma EffectiveWhereIgnoresId(id1: Id, id2: Id, w: Where, oldestFirst: bool, t: Transaction)
    ensures EffectiveWhere(id1, Some(FindArgs(Some(w), oldestFirst)))
         == EffectiveWhere(id2, Some(FindArgs(Some(w), oldestFirst)))
    ensures Matches(EffectiveWhere("", Some(FindArgs(Some(w), oldestFirst))), t) <==> Matches(w, t)
  {
  }

  /** Without the trailing spread, the merged filter would keep `id: ""` for a
      caller whose where has no id, and match no row with a non-empty id. */
  lemma InnerMergeKeepsEmptyId(w: Where, t: Transaction)
    requires w.id.None? && t.id != ""
    ensures !Matches(MergeWhere(NoFilter.(id := Some(IdEquals(""))), w), t)
  {
  }

  // ----------------------------------------------------------------- patches

  /** One field of an update: left alone (an absent key) or set to a value
      (which for a nullable column may be null). */
  datatype Upd<T> = Keep | Put(value: T)

  function UpdField<T>(u: Upd<T>, current: T): T {
    match u
    case Keep => current
    case Put(v) => v
  }

  /** A Prisma `data` object for updateTransaction. */
  datatype Patch = Patch(
    status: Upd<Status>,
    cexTxId: Upd<Option<string>>,
    tokenAmount: Upd<Option<real>>,
    idrAmount: Upd<Option<int>>,
    xenditTxId: Upd<Option<string>>,
    txHash: Upd<Option<string>>,
    refAddress: Upd<Option<string>>,
    refAmount: Upd<Option<real>>,
    paymentDetails: Upd<Option<Details>>)

  const NoChange: Patch := Patch(Keep, Keep, Keep, Keep, Keep, Keep, Keep, Keep, Keep)

  /** The row an update leaves: every `Put` field takes its value, every other
      field (and the id, type, token, wallet and creation time) is unchanged. */
  function Apply(t: Transaction, p: Patch): (u: Transaction)
    ensures u.id == t.id && u.txType == t.txType && u.tokenType == t.tokenType
    ensures u.walletAddress == t.walletAddress && u.createdAt == t.createdAt
    ensures p.status.Keep? ==> u.status == t.status
    ensures p.status.Put? ==> u.status == p.status.value
    ensures p.cexTxId.Keep? ==> u.cexTxId == t.cexTxId
    ensures p.cexTxId.Put? ==> u.cexTxId == p.cexTxId.value
    ensures p.tokenAmount.Keep? ==> u.tokenAmount == t.tokenAmount
    ensures p.tokenAmount.Put? ==> u.tokenAmount == p.tokenAmount.value
    ensures p.idrAmount.Keep? ==> u.idrAmount == t.idrAmount
    ensures p.idrAmount.Put? ==> u.idrAmount == p.idrAmount.value
    ensures p.xenditTxId.Keep? ==> u.xenditTxId == t.xenditTxId
    ensures p.xenditTxId.Put? ==> u.xenditTxId == p.xenditTxId.value
    ensures p.txHash.Keep? ==> u.txHash == t.txHash
    ensures p.txHash.Put? ==> u.txHash == p.txHash.value
    ensures p.refAddress.Keep? ==> u.refAddress == t.refAddress
    ensures p.refAddress.Put? ==> u.refAddress == p.refAddress.value
    ensures p.refAmount.Keep? ==> u.refAmount == t.refAmount
    ensures p.refAmount.Put? ==> u.refAmount == p.refAmount.value
    ensures p.paymentDetails.Keep? ==> u.paymentDetails == t.paymentDetails
    ensures p.paymentDetails.Put? ==> u.paymentDetails == p.paymentDetails.value
    ensures p == NoChange ==> u == t
  {
    t.(status := UpdField(p.status, t.status),
       cexTxId := UpdField(p.cexTxId, t.cexTxId),
       tokenAmount := UpdField(p.tokenAmount, t.tokenAmount),
       idrAmount := UpdField(p.idrAmount, t.idrAmount),
       xenditTxId := UpdField(p.xenditTxId, t.xenditTxId),
       txHash := UpdField(p.txHash, t.txHash),
       refAddress := UpdField(p.refAddress, t.refAddress),
       refAmount := UpdField(p.refAmount, t.refAmount),
       paymentDetails := UpdField(p.paymentDetails, t.paymentDetails))
  }

  // ------------------------------------------------------------ store facts

  /** Every row is stored under its own id. */
  predicate WellKeyed(txs: map<Id, Transaction>) {
    forall id :: id in txs ==> txs[id].id == id
  }

  /** The WAITING rows of one type and wallet (the `count` of line 77). */
  function CountWaiting(txs: map<Id, Transaction>, txType: TxType, wallet: string): nat {
    |set id | id in txs && txs[id].txType == txType && txs[id].walletAddress == wallet
              && txs[id].status == Waiting|
  }

  /** At most 3 WAITING deposits or 1 WAITING withdrawal per wallet. */
  function WaitingLimit(txType: TxType): nat {
    if txType == Deposit then 3 else 1
  }

  /** The database picks a fresh id for a new row; here, a run of 'x' longer
      than every existing key. */
  method NewId(txs: map<Id, Transaction>) returns (id: Id)
    ensures id !in txs
  {
    var rest := txs.Keys;
    var n: nat := 0;
    while rest != {}
      invariant rest <= txs.Keys
      invariant forall k :: k in txs.Keys - rest ==> |k| < n
      decreases rest
    {
      var k :| k in rest;
      if n <= |k| {
        n := |k| + 1;
      }
      rest := rest - {k};
    }
    id := seq(n, _ => 'x');
    assert forall k :: k in txs ==> |k| < |id|;
  }

  // ------------------------------------------------------------------ expiry

  const TenMinutesMs: int := 600000
  const WeekMs: int := 604800000

  /** updateMany: WAITING rows created more than ten minutes ago become EXPIRED. */
  predicate ExpiresAt(t: Transaction, nowMs: int) {
    t.status == Waiting && t.createdAt < nowMs - TenMinutesMs
  }

  /** deleteMany: EXPIRED rows created more than a week ago are removed. */
  predicate PurgedAt(t: Transaction, nowMs: int) {
    t.status == Expired && t.createdAt < nowMs - WeekMs
  }

  function ExpireAll(txs: map<Id, Transaction>, nowMs: int): map<Id, Transaction> {
    map id | id in txs :: if ExpiresAt(txs[id], nowMs) then txs[id].(status := Expired) else txs[id]
  }

  function PurgeAll(txs: map<Id, Transaction>, nowMs: int): map<Id, Transaction> {
    map id | id in txs && !PurgedAt(txs[id], nowMs) :: txs[id]
  }

  /** The sweep: the update runs first, so a WAITING row older than a week is
      expired and deleted in the same call; rows younger than ten minutes and
      rows in any other status than WAITING or EXPIRED are untouched. */
  lemma SweepEffect(txs: map<Id, Transaction>, nowMs: int, id: Id)
    requires id in txs
    ensures var after := PurgeAll(ExpireAll(txs, nowMs), nowMs);
      && (id in after <==> !(( txs[id].status == Waiting || txs[id].status == Expired)
                             && txs[id].createdAt < nowMs - WeekMs))
      && (id in after ==> after[id] == if ExpiresAt(txs[id], nowMs) then txs[id].(status := Expired) else txs[id])
      && (txs[id].status !in {Waiting, Expired} ==> id in after && after[id] == txs[id])
      && (txs[id].createdAt >= nowMs - TenMinutesMs ==> id in after && after[id] == txs[id])
  {
  }

  /** The sweep never adds a row and keeps rows under their ids. */
  lemma SweepShrinks(txs: map<Id, Transaction>, nowMs: int)
    requires WellKeyed(txs)
    ensures PurgeAll(ExpireAll(txs, nowMs), nowMs).Keys <= txs.Keys
    ensures WellKeyed(PurgeAll(ExpireAll(txs, nowMs), nowMs))
  {
  }

  // ----------------------------------------------------------- creation guard

  /** The request body of handleCreateTransaction; "" stands for an absent string. */
  datatype CreateInput = CreateInput(
    txType: string,
    walletAddress: string,
    tokenAmount: Option<real>,
    idrAmount: Option<int>,
    paymentDetails: Option<Details>,
    refAddress: Option<string>,
    tokenType: string)

  /** DEV_BTC_ADDRESS and STORAGE_ADDRESS from the environment. */
  datatype Env = Env(devBtcAddress: Option<string>, storageAddress: Option<string>)

  function ParseTxType(s: string): Option<TxType> {
    if s == "DEPOSIT" then Some(Deposit) else if s == "WITHDRAWAL" then Some(Withdrawal) else None
  }

  function ParseTokenType(s: string): Option<TokenType> {
    if s == "BTC" then Some(BTC) else if s == "HBAR" then Some(HBAR) else None
  }

  /** `paymentDetails?.method`, "" when absent. */
  function Method(input: CreateInput): string {
    if input.paymentDetails.Some? then Field(input.paymentDetails.value, "method") else ""
  }

  /** The HBAR address check: convert when not already an EVM address, then
      validate; `Err` when the mirror lookup threw, `Ok(None)` when invalid. */
  function ResolveHbar(addr: string, reply: MirrorReply): (r: Result<Option<string>, LookupError>)
    ensures r.Ok? && r.value.Some? ==> ValidateHbarEvm(r.value.value)
    ensures ValidateHbarEvm(addr) ==> r == Ok(Some(addr))
  {
    var converted := if ValidateHbarEvm(addr) then Ok(addr) else ToEvmAddressIfNeeded(addr, reply);
    match converted
    case Err(e) => Err(e)
    case Ok(a) => if ValidateHbarEvm(a) then Ok(Some(a)) else Ok(None)
  }

  /** The guard chain's verdict: a rejection with its status, an exception
      escaping the handler, or the row to create. */
  datatype Verdict =
    | Reject(status: int, error: string)
    | Raise
    | Accept(txType: TxType, token: TokenType, walletAddress: string, refAddress: Option<string>)

  /** The referral rules of lines 48-75, stated on their own. */
  predicate RefOk(ref: string, wallet: string, token: TokenType, env: Env, refReply: MirrorReply) {
    && ref != wallet
    && Some(ref) != env.devBtcAddress
    && Some(ref) != env.storageAddress
    && (token == BTC ==> ValidateBtcAddress(ref))
    && (token == HBAR ==> ResolveHbar(ref, refReply).Ok? && ResolveHbar(ref, refReply).value.Some?)
  }

  /** The referral checks of lines 48-75, for a truthy refAddress: the stored
      referral (converted for HBAR), or the verdict that ends the request. A
      throwing HBAR lookup is not caught here and escapes the handler. */
  function RefCheck(ref: string, wallet: string, token: TokenType, env: Env, refReply: MirrorReply)
    : (r: Result<string, Verdict>)
    ensures r.Ok? <==> RefOk(ref, wallet, token, env, refReply)
    ensures r.Ok? ==> r.value == if token == BTC then ref else ResolveHbar(ref, refReply).value.value
    ensures r.Err? ==> r.error.Raise? || (r.error.Reject? && r.error.status == 400)
    ensures r.Err? && r.error.Raise? <==> token == HBAR && !RefOk(ref, wallet, token, env, refReply)
                                          && ResolveHbar(ref, refReply).Err?
                                          && ref != wallet && Some(ref) != env.devBtcAddress
                                          && Some(ref) != env.storageAddress
  {
    if ref == wallet then Err(Reject(400, "refAddress cannot be equal to walletAddress"))
    else if Some(ref) == env.devBtcAddress then Err(Reject(400, "refAddress cannot be DEV wallet"))
    else if Some(ref) == env.storageAddress then Err(Reject(400, "refAddress cannot be STORAGE wallet"))
    else if token == BTC then
      if !ValidateBtcAddress(ref) then Err(Reject(400, "Invalid BTC referral address")) else Ok(ref)
    else match ResolveHbar(ref, refReply)
      case Err(_) => Err(Raise)
      case Ok(None) => Err(Reject(400, "Invalid HBAR referral address"))
      case Ok(Some(r)) => Ok(r)
  }

  /** The deposit rules of lines 91-146, stated on their own. */
  predicate DepositOk(input: CreateInput, token: TokenType, walletReply: MirrorReply) {
    && PresentInt(input.idrAmount) && Method(input) != ""
    && 199000 <= input.idrAmount.value
    && (Method(input) == "QRIS" ==> input.idrAmount.value <= 10000000)
    && (Method(input) == "VA" ==> input.idrAmount.value <= 20000000)
    && (token == BTC ==> ValidateBtcAddress(input.walletAddress))
    && (token == HBAR ==> ResolveHbar(input.walletAddress, walletReply).Ok?
                          && ResolveHbar(input.walletAddress, walletReply).value.Some?)
  }

  /** The deposit checks of lines 91-146: the wallet address to store, or the
      rejection. Here a throwing HBAR lookup is caught and answered with 500. */
  function DepositCheck(input: CreateInput, token: TokenType, walletReply: MirrorReply)
    : (r: Result<string, Verdict>)
    ensures r.Ok? <==> DepositOk(input, token, walletReply)
    ensures r.Ok? ==> r.value == if token == BTC then input.walletAddress
                                 else ResolveHbar(input.walletAddress, walletReply).value.value
    ensures r.Err? ==> r.error.Reject? && r.error.status in {400, 500}
    ensures r.Err? && r.error.status == 500 <==> r == Err(Reject(500, "HBAR validation failed"))
  {
    var pm := Method(input);
    if !PresentInt(input.idrAmount) || pm == "" then
      Err(Reject(400, "Missing idrAmount or payment method in paymentDetails"))
    else if input.idrAmount.value < 199000 then Err(Reject(400, "Minimum amount is 199,000 IDR."))
    else if input.idrAmount.value > 10000000 && pm == "QRIS" then
      Err(Reject(400, "Using QRIS Maximum amount is 10,000,000 IDR."))
    else if input.idrAmount.value > 20000000 && pm == "VA" then
      Err(Reject(400, "Using VA Maximum amount is 20,000,000 IDR."))
    else if token == BTC then
      if !ValidateBtcAddress(input.walletAddress) then Err(Reject(400, "Invalid Bitcoin address"))
      else Ok(input.walletAddress)
    else match ResolveHbar(input.walletAddress, walletReply)
      case Err(_) => Err(Reject(500, "HBAR validation failed"))
      case Ok(None) => Err(Reject(400, "Invalid HBAR address"))
      case Ok(Some(w)) => Ok(w)
  }

  /** The withdrawal rules of lines 233-285, stated on their own. */
  predicate WithdrawalOk(input: CreateInput, token: TokenType, env: Env) {
    && PresentReal(input.tokenAmount) && input.paymentDetails.Some? && Method(input) != ""
    && AmountOk(token, input.tokenAmount.value)
    && Some(input.walletAddress) != env.storageAddress
    && Some(input.walletAddress) != env.devBtcAddress
    && PayoutFieldsOk(input.paymentDetails.value)
  }

  /** The withdrawal limits of lines 240-252: 0.0002 to 0.01 BTC, at least 0.1 HBAR. */
  predicate AmountOk(token: TokenType, amount: real) {
    && (token == BTC ==> 0.0002 <= amount <= 0.01)
    && (token == HBAR ==> 0.1 <= amount)
  }

  /** A Xendit payout names the account it pays into (lines 264-285). */
  predicate PayoutFieldsOk(d: Details) {
    Field(d, "method") == "XENDIT_PAYOUT" ==>
      Field(d, "accountNumber") != "" && Field(d, "accountHolderName") != ""
  }

  /** The amount checks of lines 240-252: the rejection message, if any. */
  function AmountError(token: TokenType, amount: real): (e: Option<string>)
    ensures e.None? <==> AmountOk(token, amount)
  {
    if token == BTC && amount < 0.0002 then Some("Minimum withdrawal is 0.0002 BTC.")
    else if token == BTC && amount > 0.01 then Some("Maximum withdrawal is 0.01 BTC.")
    else if token == HBAR && amount < 0.1 then Some("Minimum withdrawal is 0.1 HBAR.")
    else None
  }

  /** The withdrawal checks of lines 233-285: the rejection, if any. */
  function WithdrawalCheck(input: CreateInput, token: TokenType, env: Env): (r: Option<Verdict>)
    ensures r.None? <==> WithdrawalOk(input, token, env)
    ensures r.Some? ==> r.value.Reject? && r.value.status == 400
  {
    if !PresentReal(input.tokenAmount) || Method(input) == "" then
      Some(Reject(400, "Missing tokenAmount or paymentDetails.method for withdrawal"))
    else
      var d := input.paymentDetails.value;
      match AmountError(token, input.tokenAmount.value)
      case Some(e) => Some(Reject(400, e))
      case None =>
        if Some(input.walletAddress) == env.storageAddress || Some(input.walletAddress) == env.devBtcAddress then
          Some(Reject(400, "Storage or Dev Wallet cannot create withdrawal transaction!"))
        else if !PayoutFieldsOk(d) then Some(Reject(400, "Missing payout accountNumber or accountHolderName"))
        else None
  }

  function TooMany(txType: TxType): string {
    if txType == Deposit
    then "Too many on progress deposit transactions. Please wait for the existing ones to complete."
    else "Too many on progress withdrawal transactions. Please wait for the existing ones to complete."
  }

  /** The required fields are set and name a known type and token. */
  predicate FieldsOk(input: CreateInput) {
    && input.txType != "" && input.walletAddress != "" && input.tokenType != ""
    && ParseTxType(input.txType).Some? && ParseTokenType(input.tokenType).Some?
  }

  /** Every rule of the chain, stated independently of its order. */
  predicate AllRulesHold(input: CreateInput, env: Env, txs: map<Id, Transaction>,
                         refReply: MirrorReply, walletReply: MirrorReply) {
    && FieldsOk(input)
    && var txType := ParseTxType(input.txType).value;
       var token := ParseTokenType(input.tokenType).value;
       && (Present(input.refAddress) ==>
             RefOk(input.refAddress.value, input.walletAddress, token, env, refReply))
       && CountWaiting(txs, txType, input.walletAddress) < WaitingLimit(txType)
       && (txType == Deposit ==> DepositOk(input, token, walletReply))
       && (txType == Withdrawal ==> WithdrawalOk(input, token, env))
  }

  /** The referral stage of the chain: the referral to store (none when the
      field is falsy), or the verdict that ends the request. */
  function RefStage(input: CreateInput, token: TokenType, env: Env, refReply: MirrorReply)
    : (r: Result<Option<string>, Verdict>)
    ensures r.Ok? <==>
      (Present(input.refAddress) ==> RefOk(input.refAddress.value, input.walletAddress, token, env, refReply))
    ensures r.Ok? ==>
      r.value == if Present(input.refAddress)
                 then Some(RefCheck(input.refAddress.value, input.walletAddress, token, env, refReply).value)
                 else input.refAddress
    ensures r.Err? ==> r.error.Raise? || (r.error.Reject? && r.error.status == 400)
  {
    if Present(input.refAddress) then
      match RefCheck(input.refAddress.value, input.walletAddress, token, env, refReply)
      case Err(v) => Err(v)
      case Ok(r) => Ok(Some(r))
    else Ok(input.refAddress)
  }

  /** The type-specific stage of the chain, after the cap: a deposit's or a
      withdrawal's own checks, and the row to create when they pass. */
  function TypeStage(input: CreateInput, txType: TxType, token: TokenType, env: Env,
                     walletReply: MirrorReply, ref: Option<string>): (v: Verdict)
    ensures v.Accept? <==>
      if txType == Deposit then DepositOk(input, token, walletReply) else WithdrawalOk(input, token, env)
    ensures v.Reject? ==> v.status in {400, 500}
    ensures v.Accept? ==>
      v == Accept(txType, token,
                  if txType == Deposit then DepositCheck(input, token, walletReply).value else input.walletAddress,
                  ref)
  {
    if txType == Deposit then
      match DepositCheck(input, token, walletReply)
      case Err(v) => v
      case Ok(w) => Accept(txType, token, w, ref)
    else
      match WithdrawalCheck(input, token, env)
      case Some(v) => v
      case None => Accept(txType, token, input.walletAddress, ref)
  }

  /** The guard chain of handleCreateTransaction, in source order; the first
      failing rule decides. `txs` is the store the WAITING count reads; the
      replies are those of the mirror lookups for the referral and the wallet.
      A request is accepted exactly when it meets every rule: the order of the
      chain only decides which error a failing request gets. */
  function CreateGuard(input: CreateInput, env: Env, txs: map<Id, Transaction>,
                       refReply: MirrorReply, walletReply: MirrorReply): (v: Verdict)
    ensures v.Accept? <==> AllRulesHold(input, env, txs, refReply, walletReply)
    ensures v.Reject? ==> v.status in {400, 429, 500}
    ensures v.Accept? ==>
      && v.txType == ParseTxType(input.txType).value
      && v.token == ParseTokenType(input.tokenType).value
      && v.walletAddress == (if v.txType == Deposit then DepositCheck(input, v.token, walletReply).value
                             else input.walletAddress)
      && v.refAddress == (if Present(input.refAddress)
                          then Some(RefCheck(input.refAddress.value, input.walletAddress, v.token, env, refReply).value)
                          else input.refAddress)
  {
    if input.txType == "" || input.walletAddress == "" || input.tokenType == "" then
      Reject(400, "Missing required fields")
    else if ParseTxType(input.txType).None? then Reject(400, "Invalid transaction type")
    else if ParseTokenType(input.tokenType).None? then Reject(400, "Invalid token type")
    else
      var txType := ParseTxType(input.txType).value;
      var token := ParseTokenType(input.tokenType).value;
      match RefStage(input, token, env, refReply)
      case Err(v) => v
      case Ok(ref) =>
        if CountWaiting(txs, txType, input.walletAddress) >= WaitingLimit(txType) then
          Reject(429, TooMany(txType))
        else TypeStage(input, txType, token, env, walletReply, ref)
  }

  /** The WAITING cap is checked before any amount limit: a request past the
      cap gets 429 whatever its amount, once the field, type and referral
      checks pass. */
  lemma CapBeforeAmountLimits(input: CreateInput, env: Env, txs: map<Id, Transaction>,
                              refReply: MirrorReply, walletReply: MirrorReply)
    requires FieldsOk(input)
    requires Present(input.refAddress) ==>
      RefOk(input.refAddress.value, input.walletAddress, ParseTokenType(input.tokenType).value, env, refReply)
    requires CountWaiting(txs, ParseTxType(input.txType).value, input.walletAddress)
          >= WaitingLimit(ParseTxType(input.txType).value)
    ensures CreateGuard(input, env, txs, refReply, walletReply)
         == Reject(429, TooMany(ParseTxType(input.txType).value))
  {
    var v := CreateGuard(input, env, txs, refReply, walletReply);
    assert v.Reject? && v.status == 429;
  }

  /** A missing field is reported before anything else is looked at. */
  lemma MissingFieldsFirst(input: CreateInput, env: Env, txs: map<Id, Transaction>,
                           refReply: MirrorReply, walletReply: MirrorReply)
    requires input.txType == "" || input.walletAddress == "" || input.tokenType == ""
    ensures CreateGuard(input, env, txs, refReply, walletReply) == Reject(400, "Missing required fields")
  {
  }

  /** The cap counts rows under the address as submitted, while an HBAR
      deposit stores the address the lookup converts it to: with three
      WAITING deposits already stored under the converted address, a fourth
      submitted in the account-id form is still accepted. */
  lemma CapCountsSubmittedAddress(input: CreateInput, env: Env, txs: map<Id, Transaction>,
                                  refReply: MirrorReply, walletReply: MirrorReply, evm: string)
    requires FieldsOk(input) && ParseTxType(input.txType).value == Deposit
    requires ParseTokenType(input.tokenType).value == HBAR
    requires Present(input.refAddress) ==>
      RefOk(input.refAddress.value, input.walletAddress, HBAR, env, refReply)
    requires DepositOk(input, HBAR, walletReply)
    requires ResolveHbar(input.walletAddress, walletReply) == Ok(Some(evm))
    requires CountWaiting(txs, Deposit, evm) >= 3
    requires CountWaiting(txs, Deposit, input.walletAddress) == 0
    ensures CreateGuard(input, env, txs, refReply, walletReply).Accept?
    ensures CreateGuard(input, env, txs, refReply, walletReply).walletAddress == evm
  {
  }

  /** The payment request the gateway returns for a deposit. */
  datatype PaymentRequest = PaymentRequest(id: string, qrString: Option<string>, vaNumber: Option<string>)

  /** The outcome handleCreateTransaction reports: the created row (status
      201), a rejection, or an exception. */
  datatype CreateResult = Created(tx: Transaction) | Rejected(status: int, error: string) | Raised

  /** A JSON object key: set to a defined value, dropped for `undefined`. */
  function PutIf(d: Details, key: string, value: Option<string>): Details {
    if value.Some? then d[key := value.value] else d - {key}
  }

  /** The row prisma.transaction.create stores for a deposit (status defaults to WAITING). */
  function NewDeposit(id: Id, v: Verdict, input: CreateInput, nowMs: int): Transaction
    requires v.Accept?
  {
    Transaction(id, Deposit, v.token, Waiting, v.walletAddress, nowMs, input.idrAmount, None,
                input.paymentDetails, None, None, None, v.refAddress, None)
  }

  /** The row stored for a withdrawal: the payment details gain the dev address. */
  function NewWithdrawal(id: Id, v: Verdict, input: CreateInput, env: Env, nowMs: int): Transaction
    requires v.Accept? && input.paymentDetails.Some?
  {
    Transaction(id, Withdrawal, v.token, Waiting, input.walletAddress, nowMs, None, input.tokenAmount,
                Some(PutIf(input.paymentDetails.value, "bitvaultAddress", env.devBtcAddress)),
                None, None, None, None, None)
  }

  /** The update after a payment request: its id and the trimmed payment details. */
  function WithPaymentRequest(t: Transaction, pm: string, pd: Details, x: PaymentRequest): Transaction {
    var details :=
      if pm == "QRIS" then PutIf(map["method" := "QRIS"], "qrString", x.qrString)
      else PutIf(PutIf(map["method" := "VA"], "channelCode", if "channelCode" in pd then Some(pd["channelCode"]) else None),
                 "vaNumber", x.vaNumber);
    t.(xenditTxId := Some(x.id), paymentDetails := Some(details))
  }

  /** The stored deposit row and the handler's answer: without a gateway
      method the plain row; with QRIS or VA the row carries the payment
      request, and a gateway failure escapes after the plain row is stored. */
  predicate CreatedDeposit(id: Id, v: Verdict, input: CreateInput, gateway: Fetch<PaymentRequest>, nowMs: int,
                           res: CreateResult, t: Transaction)
    requires v.Accept?
  {
    if Method(input) == "QRIS" || Method(input) == "VA" then
      match gateway
      case Failed => res == Raised && t == NewDeposit(id, v, input, nowMs)
      case Got(x) =>
        && res == Created(t)
        && t == WithPaymentRequest(NewDeposit(id, v, input, nowMs), Method(input), input.paymentDetails.value, x)
    else res == Created(t) && t == NewDeposit(id, v, input, nowMs)
  }

  class TransactionService {
    var txs: map<Id, Transaction>

    constructor(txs: map<Id, Transaction>)
      requires WellKeyed(txs)
      ensures this.txs == txs
    {
      this.txs := txs;
    }

    predicate Valid()
      reads this
    {
      WellKeyed(txs)
    }

    /** getTransactions({ where }): every matching row once, in no particular order. */
    method GetTransactions(w: Where) returns (rows: seq<Transaction>)
      requires Valid()
      ensures forall t :: t in rows <==> t in txs.Values && Matches(w, t)
      ensures forall i, j :: 0 <= i < j < |rows| ==> rows[i].id != rows[j].id
    {
      var pending := set id | id in txs && Matches(w, txs[id]);
      ghost var seen: set<Id> := {};
      rows := [];
      while pending != {}
        invariant pending !! seen
        invariant pending + seen == set id | id in txs && Matches(w, txs[id])
        invariant forall t :: t in rows <==> exists id :: id in seen && t == txs[id]
        invariant forall i :: 0 <= i < |rows| ==> rows[i].id in seen
        invariant forall i, j :: 0 <= i < j < |rows| ==> rows[i].id != rows[j].id
        decreases pending
      {
        var id :| id in pending;
        assert txs[id].id == id;
        rows := rows + [txs[id]];
        pending := pending - {id};
        seen := seen + {id};
      }
      forall t | t in txs.Values && Matches(w, t)
        ensures t in rows
      {
        var id :| id in txs && txs[id] == t;
        assert id in seen;
      }
    }

    /** getSingleTransactionByID(id, args): findFirst over the effective filter;
        with `orderBy createdAt asc` one of the oldest matching rows. */
    method GetSingleTransactionById(id: Id, args: Option<FindArgs>) returns (r: Option<Transaction>)
      requires Valid()
      ensures r.None? <==> forall k :: k in txs ==> !Matches(EffectiveWhere(id, args), txs[k])
      ensures r.Some? ==> r.value in txs.Values && Matches(EffectiveWhere(id, args), r.value)
      ensures r.Some? && args.Some? && args.value.oldestFirst ==>
        forall k :: k in txs && Matches(EffectiveWhere(id, args), txs[k]) ==> r.value.createdAt <= txs[k].createdAt
    {
      var w := EffectiveWhere(id, args);
      var matching := set k | k in txs && Matches(w, txs[k]);
      if matching == {} {
        assert forall k :: k in txs && Matches(w, txs[k]) ==> k in matching;
        return None;
      }
      var k := OldestOf(matching);
      return Some(txs[k]);
    }

    /** One of the rows in `ids` with the smallest creation time. */
    method OldestOf(ids: set<Id>) returns (k: Id)
      requires ids != {} && ids <= txs.Keys
      ensures k in ids && forall j :: j in ids ==> txs[k].createdAt <= txs[j].createdAt
    {
      var rest := ids;
      k :| k in rest;
      rest := rest - {k};
      ghost var seen := {k};
      while rest != {}
        invariant k in seen && seen + rest == ids && seen !! rest
        invariant forall j :: j in seen ==> txs[k].createdAt <= txs[j].createdAt
        decreases rest
      {
        var j :| j in rest;
        if txs[j].createdAt < txs[k].createdAt {
          k := j;
        }
        rest := rest - {j};
        seen := seen + {j};
      }
    }

    /** updateTransaction(id, data): Prisma's update throws when no row has the id. */
    method UpdateTransaction(id: Id, p: Patch) returns (r: Option<Transaction>)
      requires Valid()
      modifies this
      ensures Valid()
      ensures id in old(txs) ==> txs == old(txs)[id := Apply(old(txs)[id], p)] && r == Some(txs[id])
      ensures id !in old(txs) ==> txs == old(txs) && r.None?
    {
      if id !in txs {
        return None;
      }
      var u := Apply(txs[id], p);
      txs := txs[id := u];
      return Some(u);
    }

    /** expireOldTransactions(): the ten-minute expiry, then the one-week purge;
        the counts are those of the two bulk operations. */
    method ExpireOldTransactions(nowMs: int) returns (expired: nat, deleted: nat)
      requires Valid()
      modifies this
      ensures Valid()
      ensures txs == PurgeAll(ExpireAll(old(txs), nowMs), nowMs)
      ensures expired == |set id | id in old(txs) && ExpiresAt(old(txs)[id], nowMs)|
      ensures deleted == |set id | id in old(txs) && PurgedAt(ExpireAll(old(txs), nowMs)[id], nowMs)|
    {
      expired := |set id | id in txs && ExpiresAt(txs[id], nowMs)|;
      txs := ExpireAll(txs, nowMs);
      assert (set id | id in txs && PurgedAt(txs[id], nowMs))
          == (set id | id in old(txs) && PurgedAt(ExpireAll(old(txs), nowMs)[id], nowMs));
      deleted := |set id | id in txs && PurgedAt(txs[id], nowMs)|;
      txs := PurgeAll(txs, nowMs);
    }

    /** handleCreateTransaction(input): the guard chain, then the row, then for
        a QRIS or VA deposit the payment request and the update recording it.
        A payment request that throws leaves the new row behind. */
    method HandleCreateTransaction(input: CreateInput, env: Env, refReply: MirrorReply, walletReply: MirrorReply,
                                   gateway: Fetch<PaymentRequest>, nowMs: int)
      returns (res: CreateResult, row: Option<Transaction>)
      requires Valid()
      modifies this
      ensures Valid()
      ensures var v := CreateGuard(input, env, old(txs), refReply, walletReply);
        && (v.Reject? ==> res == Rejected(v.status, v.error) && row.None? && txs == old(txs))
        && (v.Raise? ==> res == Raised && row.None? && txs == old(txs))
        && (v.Accept? ==> row.Some? && row.value.id !in old(txs) && txs == old(txs)[row.value.id := row.value])
      ensures row.Some? ==>
        var v := CreateGuard(input, env, old(txs), refReply, walletReply);
        var id := row.value.id;
        && v.Accept?
        && (v.txType == Withdrawal ==> res == Created(row.value) && row.value == NewWithdrawal(id, v, input, env, nowMs))
        && (v.txType == Deposit ==> CreatedDeposit(id, v, input, gateway, nowMs, res, row.value))
    {
      var v := CreateGuard(input, env, txs, refReply, walletReply);
      match v
      case Reject(status, error) =>
        return Rejected(status, error), None;
      case Raise =>
        return Raised, None;
      case Accept(txType, token, wallet, ref) =>
        var id := NewId(txs);
        if txType == Withdrawal {
          var t := NewWithdrawal(id, v, input, env, nowMs);
          txs := txs[id := t];
          return Created(t), Some(t);
        }
        var t;
        res, t := CreateDeposit(id, v, input, gateway, nowMs);
        row := Some(t);
    }

    /** Lines 148-229: store the deposit row, then for QRIS or VA ask the
        gateway for a payment request and store it on the row. */
    method CreateDeposit(id: Id, v: Verdict, input: CreateInput, gateway: Fetch<PaymentRequest>, nowMs: int)
      returns (res: CreateResult, t: Transaction)
      requires Valid() && id !in txs && v.Accept? && v.txType == Deposit
      modifies this
      ensures Valid() && t.id == id && txs == old(txs)[id := t]
      ensures CreatedDeposit(id, v, input, gateway, nowMs, res, t)
    {
      t := NewDeposit(id, v, input, nowMs);
      txs := txs[id := t];
      var pm := Method(input);
      if pm == "QRIS" || pm == "VA" {
        match gateway
        case Failed =>
          return Raised, t;
        case Got(x) =>
          t := WithPaymentRequest(t, pm, input.paymentDetails.value, x);
          txs := txs[id := t];
          return Created(t), t;
      }
      return Created(t), t;
    }
  }
}
