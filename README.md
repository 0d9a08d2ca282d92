# Settlement back end: a Dafny model

The service is a custodial settlement back end. It takes fiat deposits through
a payment gateway and buys BTC or HBAR on an exchange for the user. For a
withdrawal, it receives the user's tokens on chain, sells them and pays out
IDR.

Each request is a `Transaction` row in a database. Scheduled jobs move the
row through its statuses:
- a deposit goes WAITING → PAID → settled;
- a withdrawal goes WAITING → PENDING → PAID → COMPLETED.

This project models the decision code of that back end:

- the `ActionService` jobs:
  - marking gateway-paid deposits;
  - settling PAID rows: the deposit fee cascade and referral, and the three resumable withdrawal steps;
  - matching on-chain BTC transfers to WAITING and PENDING withdrawals;
- the fee arithmetic around the exchange orders (`roundToBinanceStep`, `buyTokenFromBinance`, `sellTokenFromBinance`);
- the BTC bulk payout builder:
  - the block-height throttle;
  - the fee-rate and fee clamps;
  - greedy UTXO selection and the output list;
  - the height update after a broadcast;
- the BTC and Hedera incoming-transfer readers;
- the Hedera bulk transfer list, the consensus check and the mirror-id rewrite;
- the transaction-creation guard chain, the per-wallet WAITING cap and the expiry sweep, with the filter merge of `getSingleTransactionByID`;
- the address validators.

The database is a `map<Id, Transaction>` held by the class
`TransactionService`. The jobs are methods of `ActionService`, which holds
that store.

External services are oracle parameters that give the reply to each call:
- the payment gateway;
- the exchange and its price lookup;
- the mempool explorer;
- the Hedera mirror node and SDK.

A `Fetch`/`Option` value of `Failed`/`None` stands for a call that threw. The
clock is a parameter `nowMs`. The configuration constants form one `Config`
value:
- `TOKEN_CONSTANTS`, `SHARING` and `REFERRAL`;
- `LIFETIME_REFERRERS`;
- `MAX_TX_AGE_MS`.

Arithmetic is exact: IDR, satoshi and tinybar amounts are `int`; token amounts,
percentages and prices are `real`; `Math.ceil`/`Math.floor` are `Ceil`/`.Floor`.

Files, one module each:
- `wrappers.dfy`: Option and Result.
- `strings.dfy`: JavaScript `split`, `String(n)` and string `>`.
- `records.dfy`: the Transaction row and the fee constants.
- `binance_helper.dfy` and `binance_service.dfy`.
- `validate_address.dfy`.
- `hedera_helper.dfy` and `hedera_service.dfy`.
- `btc_service.dfy`.
- `transaction_management.dfy`.
- `action_fees.dfy`: the pure fee formulas of `action.service.ts`.
- `action_service.dfy`: the jobs.

Two properties the fee code does not have:
- **The deposit split is not monotone.** Every fee is rounded up separately, so a larger payment can leave less to spend (`ActionFees.LargerDepositCanSpendLess`).
- **Withdrawal fees are deducted twice.** The exchange sell applies its own fee cascade to an amount that is already net of the same fees (`ActionFees.SellDeductsFeesAgain`).

## Model

| member | source | states |
|---|---|---|
| Strings.Split | src/modules/wallet-management/hedera/hedera.helper.ts:2-3 | `split` on one character gives at least one piece, none containing the separator, and the whole string when the separator is absent |
| Strings.JoinSplit | src/modules/wallet-management/hedera/hedera.helper.ts:2-3 | joining the pieces of a split with the separator gives back the string |
| Strings.SplitJoin | src/modules/wallet-management/hedera/hedera.helper.ts:2-3 | splitting a join of separator-free pieces gives back the pieces |
| Strings.SplitPrefix | src/modules/wallet-management/hedera/hedera.helper.ts:2-3 | a separator-free prefix before the first separator is the first piece |
| Strings.Decimal | src/modules/binance/binance.service.ts:52 | `String(orderId)` is a non-empty string of decimal digits |
| Strings.ParseDecimalOfDecimal | src/modules/binance/binance.service.ts:52 | the decimal text of an order id reads back as that id, so distinct orders give distinct `cexTxId`s |
| Strings.LessTrichotomy | src/modules/wallet-management/hedera/hedera.service.ts:50 | string `>` is a strict total order: irreflexive, asymmetric and total |
| Records.Ceil | src/modules/action/action.service.ts:62 | `Math.ceil(x)` is the least integer at or above `x` |
| BinanceHelper.RoundToBinanceStep | src/modules/binance/binance.helper.ts:3-14 | the result is the amount floored to the token's step; it fails exactly when that floored value is below the token's minimum, and the error carries the floored value and the minimum |
| BinanceHelper.ToFixed6OnStep | src/modules/binance/binance.helper.ts:13 | `toFixed(6)` leaves a non-negative multiple of the step unchanged |
| BinanceHelper.FloorToStepBounds | src/modules/binance/binance.helper.ts:4-7 | the floored value is at most the amount, less than one step below it, and a multiple of the step (step 1 for HBAR, 0.00001 otherwise) |
| BinanceHelper.RoundBounds | src/modules/binance/binance.helper.ts:4-13 | a returned quantity is at most the amount, within one step of it, on the step and at least the minimum (1 for HBAR, 0.00005 otherwise) |
| BinanceHelper.RoundSucceedsIff | src/modules/binance/binance.helper.ts:5-11 | rounding succeeds if and only if the amount is at least the minimum |
| BinanceHelper.RoundIdempotent | src/modules/binance/binance.helper.ts:7-13 | rounding a rounded quantity returns it unchanged |
| BinanceHelper.RoundMonotone | src/modules/binance/binance.helper.ts:7-11 | a larger amount also rounds successfully, to a quantity at least as large |
| BinanceService.BuyTokenFromBinance | src/modules/binance/binance.service.ts:40-56 | the buy succeeds if and only if the price lookup and the order succeed and `idr/price` rounds; the quantity is `idr/price` floored to the step, at least the minimum; `cexTxId` is the order id's decimal text; a sub-minimum quantity fails before the order |
| BinanceService.FeeWithFloorBounds | src/modules/binance/binance.service.ts:64-75 | a percentage fee floored at its fix succeeds if and only if the percentage part reaches the minimum, and is then at least the fix and the minimum |
| BinanceService.SellRestBounds | src/modules/binance/binance.service.ts:77-97 | the exchange fee and the sold quantity are at least the minimum; the quantity is on the step and at most the amount less all four fees |
| BinanceService.SellTokenFromBinance | src/modules/binance/binance.service.ts:58-112 | the sell succeeds if and only if the fee cascade, the price lookup and the order succeed; `idrAmount` is `floor(sold·price)` less the payout fee; `cexTxId` is the order id's text |
| BinanceService.SellCascadeFloors | src/modules/binance/binance.service.ts:62-97 | the tolerance and platform fee are each at least their fix and the minimum; the sold quantity is on the step, at least the minimum and at most the amount less all fees |
| BinanceService.SellNoFallbackToFix | src/modules/binance/binance.service.ts:64-75 | if the tolerance or platform percentage part is below the minimum, the sell fails with a rounding error; it does not fall back to the fix |
| BinanceService.SoldBelowAmount | src/modules/binance/binance.service.ts:77-97 | with a non-negative operational fee, the sold quantity is strictly less than the amount passed in |
| ValidateAddress.ValidateBtcAddress | src/common/helper/validateAddress.helper.ts:3-16 | false for "", and true exactly for a length of 42-62 with prefix `bc1q` or `bc1p` and every character from index 3 in the bech32 alphabet |
| ValidateAddress.ValidateHbarEvm | src/common/helper/validateAddress.helper.ts:18-24 | true exactly for `0x` followed by 40 hex digits of either case |
| ValidateAddress.ToEvmAddressIfNeeded | src/common/helper/validateAddress.helper.ts:26-43 | only an input of the form `0.0.<digits>` can fail or change. For such an input, the result fails exactly when the fetch throws. It is the returned `evm_address` when that is non-empty, and the input itself after a non-OK reply or a missing or empty `evm_address` |
| ValidateAddress.ToEvmUnchanged | src/common/helper/validateAddress.helper.ts:27-31 | an empty input, a valid EVM address or an input not of the form `0.0.<digits>` is returned unchanged whatever the node replies, so the function is idempotent on EVM addresses |
| HederaHelper.ToMirrorId | src/modules/wallet-management/hedera/hedera.helper.ts:1-5 | the rewrite fails exactly when the id contains no `@` |
| HederaHelper.MirrorIdOfWellFormed | src/modules/wallet-management/hedera/hedera.helper.ts:2-4 | `A@S.N` becomes `A-S-N`, dots inside `A` kept |
| HederaHelper.MirrorIdIgnoresTail | src/modules/wallet-management/hedera/hedera.helper.ts:2-3 | only the first `@` and the first `.` after it matter; further pieces are dropped |
| HederaHelper.MirrorIdWithoutNanos | src/modules/wallet-management/hedera/hedera.helper.ts:3-4 | without a `.` after the `@`, the nanos part renders as `undefined` |
| HederaService.CreditStep | src/modules/wallet-management/hedera/hedera.service.ts:68-79 | appending the next credit keeps the transfer list's sum equal to the tinybars of the deposits so far less the debit |
| HederaService.CreditsOf | src/modules/wallet-management/hedera/hedera.service.ts:130-132 | the credits are exactly the transfer entries on `accountId` |
| HederaService.CreditsOfAppend | src/modules/wallet-management/hedera/hedera.service.ts:130-132 | the filter keeps order: a lone entry is kept exactly when it credits the account, and the result for a concatenation is the two results concatenated |
| HederaService.FirstCounterpart | src/modules/wallet-management/hedera/hedera.service.ts:135-138 | it finds the first entry on another account with an equal amount, or none if no such entry exists |
| HederaService.HederaService.constructor | src/modules/wallet-management/hedera/hedera.service.ts:16-39 | `lastConsensus` starts as null |
| HederaService.HederaService.MonitorNewConsensus | src/modules/wallet-management/hedera/hedera.service.ts:41-60 | a failed fetch raises; otherwise the poll is new exactly when a consensus exists and `lastConsensus` is null or smaller in string order, and it returns the new consensus if new, else `lastConsensus` |
| HederaService.FirstPollIsNew | src/modules/wallet-management/hedera/hedera.service.ts:41-52 | since `lastConsensus` is never assigned, every poll with a consensus timestamp reports it as new |
| HederaService.HederaService.SendHBulkToUsers | src/modules/wallet-management/hedera/hedera.service.ts:62-94 | no deposits returns "" and no transfers; otherwise the list is one operator debit of minus the total, then one credit per deposit in input order; the result is the transaction id the network returns, or an error; with whole-tinybar amounts the list sums to zero |
| HederaService.HederaService.IsTransactionConfirmed | src/modules/wallet-management/hedera/hedera.service.ts:96-111 | it fails when the id has no `@` or the mirror call fails, and is otherwise true exactly when the mirror result is `SUCCESS` |
| HederaService.HederaService.GetIncomingTransactions | src/modules/wallet-management/hedera/hedera.service.ts:113-158 | a failed fetch or a bad timestamp raises; otherwise the result is the records of the nested credit loop |
| HederaService.IncomingStopsAtBadTimestamp | src/modules/wallet-management/hedera/hedera.service.ts:124-128 | a consensus timestamp whose seconds part is not a number makes the whole call fail |
| HederaService.IncomingFailsIff | src/modules/wallet-management/hedera/hedera.service.ts:123-148 | the call fails exactly when some item's timestamp is bad; otherwise there is one record per credit entry of every item |
| HederaService.IncomingRecordsAreCredits | src/modules/wallet-management/hedera/hedera.service.ts:130-146 | every record is built from a credit entry on `accountId` of one item, with that item's timestamp in ms |
| HederaService.SenderIsAnotherAccount | src/modules/wallet-management/hedera/hedera.service.ts:135-142 | `from` is `unknown` or another account that has an entry of the same amount |
| BtcService.FeeRate | src/modules/wallet-management/btc/btc.service.ts:33-35 | the fee rate lies in [1, 2], and is 2 exactly when `economyFee` is truthy and above 1 |
| BtcService.EstFee | src/modules/wallet-management/btc/btc.service.ts:62-65 | every fee estimate is clamped into [300, 800] sat |
| BtcService.SelectUtxos | src/modules/wallet-management/btc/btc.service.ts:54-70 | it selects the shortest non-empty prefix of the UTXOs whose sum covers the total plus that prefix's fee, or all of them when none does; it returns the prefix's sum and fee |
| BtcService.BuildOutputs | src/modules/wallet-management/btc/btc.service.ts:86-98 | the outputs are the corrected payout list: one main output per deposit in order, plus a referral output of the referral amount; when every counted referral amount has an address they sum to `totalSend` |
| BtcService.SumOutputsAppend | src/modules/wallet-management/btc/btc.service.ts:47-51 | output sums add over concatenation |
| BtcService.PayoutsSumToTotal | src/modules/wallet-management/btc/btc.service.ts:47-98 | with the referral output carrying the referral amount and every counted referral amount having an address, the payout outputs sum exactly to `totalSend` |
| BtcService.ReferralOutputAsWrittenOverpays | src/modules/wallet-management/btc/btc.service.ts:92-96 | as written, a 0.001 BTC deposit with a 0.0001 BTC referral produces outputs of 200000 sat against a `totalSend` of 110000 |
| BtcService.BtcService.constructor | src/modules/wallet-management/btc/btc.service.ts:8-15 | `lastBlockHeight` starts at 0 |
| BtcService.BtcService.MonitorNewBlocks | src/modules/wallet-management/btc/btc.service.ts:18-26 | a failed fetch is an error; otherwise the poll is new exactly when the latest height exceeds `lastBlockHeight`, and it returns the latest height if new, else `lastBlockHeight`; the field is not written |
| BtcService.FirstPollSeesPositiveHeight | src/modules/wallet-management/btc/btc.service.ts:18-26 | a fresh service reports every positive height as new |
| BtcService.BtcService.SendBtcBulkToUsers | src/modules/wallet-management/btc/btc.service.ts:29-121 | covers the whole payout, listed below |
| BtcService.BtcService.IsTransactionConfirmed | src/modules/wallet-management/btc/btc.service.ts:124-127 | it returns the explorer's `confirmed` flag, or an error when the call fails |
| BtcService.FirstOutputTo | src/modules/wallet-management/btc/btc.service.ts:139-141 | it finds the first output to the address, or none if no output pays it |
| BtcService.Matching | src/modules/wallet-management/btc/btc.service.ts:134-137 | it keeps exactly the transactions with an output to the address |
| BtcService.MatchingAppend | src/modules/wallet-management/btc/btc.service.ts:134-137 | the filter keeps order: a lone transaction is kept exactly when it pays the address, and the result for a concatenation is the two results concatenated |
| BtcService.RecordsOf | src/modules/wallet-management/btc/btc.service.ts:138-153 | the map fails exactly when one record cannot be built; otherwise record k is built from transaction k |
| BtcService.IncomingOf | src/modules/wallet-management/btc/btc.service.ts:130-154 | there is one record per transaction paying the address, in order, and every such transaction has its record in the result |
| BtcService.IncomingOfAppend | src/modules/wallet-management/btc/btc.service.ts:130-154 | when a concatenated history yields records, each part does, and the records are the first part's followed by the second's |
| BtcService.RecordDescribesTransaction | src/modules/wallet-management/btc/btc.service.ts:138-152 | a record keeps the txid and the confirmed flag; its amount is the first output to the address / 1e8, and `from` is the first input's prevout address or `unknown` |
| TransactionManagement.EffectiveWhere | src/modules/transaction-management/transaction-management.service.ts:343-351 | when `args.where` is given it replaces `{id, ...}`, because the spread of `args` comes last; otherwise the filter is the id alone |
| TransactionManagement.EffectiveWhereIgnoresId | src/modules/transaction-management/transaction-management.service.ts:347-350 | with `args.where` given, the id argument does not matter, and the lookup by "" matches exactly what that where matches |
| TransactionManagement.InnerMergeKeepsEmptyId | src/modules/transaction-management/transaction-management.service.ts:348 | the inner merge alone, with id "", would match no real row: callers passing "" depend on the outer spread |
| TransactionManagement.Apply | src/modules/transaction-management/transaction-management.service.ts:353-363 | an update keeps the row's id, type, token, wallet and creation time; each of the nine fields an update may set (status, `cexTxId`, token and IDR amounts, payment-gateway id, hash, referral address and amount, payment details) takes the new value, and one it leaves out keeps the old value; an empty update leaves the row as it was |
| TransactionManagement.NewId | src/modules/transaction-management/transaction-management.service.ts:148-157 | a created row gets an id not in the store |
| TransactionManagement.SweepEffect | src/modules/transaction-management/transaction-management.service.ts:313-335 | after the sweep, a row is gone exactly when it was WAITING or EXPIRED and older than 7 days; a WAITING row older than 10 minutes is EXPIRED; every other row is unchanged |
| TransactionManagement.SweepShrinks | src/modules/transaction-management/transaction-management.service.ts:317-332 | the sweep only removes rows and keeps every row under its own id |
| TransactionManagement.ResolveHbar | src/modules/transaction-management/transaction-management.service.ts:126-142 | an address the HBAR check resolves to is a valid EVM address, and a valid EVM address resolves to itself |
| TransactionManagement.RefCheck | src/modules/transaction-management/transaction-management.service.ts:48-75 | the referral passes exactly when it differs from the wallet and the DEV and STORAGE addresses and is valid for its token; an HBAR referral is replaced by its EVM address; a failure is a 400, or an escaping lookup error after the three equality checks |
| TransactionManagement.DepositCheck | src/modules/transaction-management/transaction-management.service.ts:90-146 | the deposit passes exactly when `idrAmount` and the method are set, `idrAmount` ≥ 199,000, QRIS ≤ 10,000,000, VA ≤ 20,000,000 and the wallet is valid for its token; an HBAR wallet is replaced by its EVM address; a failed lookup is a 500 |
| TransactionManagement.AmountError | src/modules/transaction-management/transaction-management.service.ts:240-252 | there is no amount error exactly when BTC lies in [0.0002, 0.01] or HBAR is ≥ 0.1 |
| TransactionManagement.WithdrawalCheck | src/modules/transaction-management/transaction-management.service.ts:232-285 | the withdrawal passes exactly when the amount and method are set, the amount is within its limits, the wallet is neither STORAGE nor DEV, and an `XENDIT_PAYOUT` has account number and holder name; every failure is a 400 |
| TransactionManagement.RefStage | src/modules/transaction-management/transaction-management.service.ts:48-75 | the referral stage passes exactly when there is no referral or it passes its check, and yields the stored referral address |
| TransactionManagement.TypeStage | src/modules/transaction-management/transaction-management.service.ts:90-308 | the type-specific stage accepts exactly when the deposit or withdrawal rules hold, rejects with 400 or 500, and accepts with the resolved wallet and referral |
| TransactionManagement.CreateGuard | src/modules/transaction-management/transaction-management.service.ts:25-311 | the guard chain accepts exactly when every rule holds, rejects with 400, 429 or 500 otherwise, and an accepted request carries the parsed type, the token, the resolved wallet and the resolved referral |
| TransactionManagement.CapBeforeAmountLimits | src/modules/transaction-management/transaction-management.service.ts:77-114 | once the fields and the referral pass, a full WAITING cap gives 429 whatever the amount |
| TransactionManagement.MissingFieldsFirst | src/modules/transaction-management/transaction-management.service.ts:36-38 | a missing type, wallet or token gives the 400 `Missing required fields` before any other rule |
| TransactionManagement.CapCountsSubmittedAddress | src/modules/transaction-management/transaction-management.service.ts:77-146 | the cap counts WAITING rows of the submitted wallet, not its EVM rewrite, so an HBAR account id passes the cap even though its EVM address already has 3 WAITING deposits |
| TransactionManagement.TransactionService.constructor | src/modules/transaction-management/transaction-management.service.ts:20-23 | the store starts with the given rows |
| TransactionManagement.TransactionService.GetTransactions | src/modules/transaction-management/transaction-management.service.ts:337-341 | it lists exactly the stored rows matching the filter, each once |
| TransactionManagement.TransactionService.GetSingleTransactionById | src/modules/transaction-management/transaction-management.service.ts:343-351 | it returns none exactly when no row matches the effective filter; otherwise it returns a matching row, one of the earliest created when ordered by `createdAt` |
| TransactionManagement.TransactionService.OldestOf | src/modules/transaction-management/transaction-management.service.ts:347-350 | it picks a row of least `createdAt` among the candidates |
| TransactionManagement.TransactionService.UpdateTransaction | src/modules/transaction-management/transaction-management.service.ts:353-363 | it applies the update to the row with that id, returns the updated row and changes no other row; with no row of that id it changes nothing and reports the failure |
| TransactionManagement.TransactionService.ExpireOldTransactions | src/modules/transaction-management/transaction-management.service.ts:313-335 | the new store is the expire-then-purge sweep of the old one; the two counts are the number of rows expired and the number deleted |
| TransactionManagement.TransactionService.HandleCreateTransaction | src/modules/transaction-management/transaction-management.service.ts:25-311 | a rejected or raising request stores nothing; an accepted one stores exactly one new row: a withdrawal with the DEV address in its payment details, or a deposit, with the payment request for QRIS/VA |
| TransactionManagement.TransactionService.CreateDeposit | src/modules/transaction-management/transaction-management.service.ts:148-229 | it stores the deposit row; for QRIS or VA it attaches the payment request id and details, and a gateway failure escapes with the plain row stored |
| ActionFees.QuoteDeposit | src/modules/action/action.service.ts:60-98 | the payment is the purchase amount plus the gateway, exchange and tax fees; the purchase amount is the user's share plus the platform fee and tolerance; each max-fee is at least its fix, and the referral reward is at least its minimum |
| ActionFees.LargerDepositCanSpendLess | src/modules/action/action.service.ts:60-90 | with 1% exchange fees and no fixes, a 101 IDR deposit leaves 97 to buy with and a 100 IDR one leaves 98 |
| ActionFees.BandFee | src/modules/action/action.service.ts:107-139 | an internal-transfer fee succeeds exactly when `MAX·idr/20000000` reaches the lot minimum, and is then at least the band's MIN and the lot minimum |
| ActionFees.OptionalBandFee | src/modules/action/action.service.ts:107-139 | an undefined band costs nothing; a defined one is its band fee |
| ActionFees.OnChainFees | src/modules/action/action.service.ts:107-143 | the on-chain deductions succeed exactly when every defined band rounds, and are then non-negative when the last-hop fee is |
| ActionFees.ShareAtMost | src/modules/action/action.service.ts:104-105 | the user's proportional share of the bought tokens lies between 0 and the amount bought |
| ActionFees.TokenUserWithinBought | src/modules/action/action.service.ts:103-149 | with a non-negative last-hop fee, the credited token amount is on the step, at least the minimum and at most the amount bought |
| ActionFees.ResolveReferral | src/modules/action/action.service.ts:151-189 | a referral is rewarded exactly when the row's own referrer is set and either this is the wallet's first paid deposit or the referrer is a lifetime one, or when it is recovered as a lifetime referrer from the first paid deposit; an unrewarded referral is cleared |
| ActionFees.OrdinaryReferrerRewardedOnce | src/modules/action/action.service.ts:166-189 | after a first paid deposit exists, an ordinary (non-lifetime) referrer earns nothing and is cleared |
| ActionFees.DepositPatch | src/modules/action/action.service.ts:55-197 | the deposit's only write sets the exchange order, token amount and referral, not its status or IDR amount |
| ActionFees.DepositSettledOnce | src/modules/action/action.service.ts:55-196 | after the write the row is no longer unsettled, its token amount is on the step and at least the minimum, it carries a referral amount exactly when the referral is rewarded, and the purchase amount was positive |
| ActionFees.BoughtMeansPositive | src/modules/action/action.service.ts:100-101 | a successful buy implies a positive IDR amount |
| ActionFees.WithdrawalPlan | src/modules/action/action.service.ts:203-233 | the withdrawal's tolerance and platform fee are at least their fixes, the operational fee is the configured one or 0, and the quantity to sell is on the step, at least the minimum and at most the amount less all fees |
| ActionFees.SellDeductsFeesAgain | src/modules/action/action.service.ts:230-241 | with a defined non-negative operational fee, the sell then sells strictly less than the planned quantity and yields at most the IDR amount recorded for the payout |
| ActionFees.ProceedsBelowPayout | src/modules/action/action.service.ts:230-241 | at one price, the IDR a sell of the planned quantity yields is at most the IDR recorded for the payout |
| ActionFees.ProceedsMonotone | src/modules/binance/binance.service.ts:100 | at one price, selling less never yields more IDR after the payout fee |
| ActionFees.WithdrawalPatch | src/modules/action/action.service.ts:203-247 | the sell step writes only a non-empty `cexTxId` and the `idrAmount` computed from the planned quantity and the pre-sale price |
| ActionService.MarkedPaidIdempotent | src/modules/action/action.service.ts:21-47 | running the mark-paid job twice with the same gateway replies changes nothing more |
| ActionService.MarkedPaidOnlyPays | src/modules/action/action.service.ts:21-47 | a row changes exactly when it is a WAITING deposit with a payment request whose status is SUCCEEDED, and then only its status becomes PAID |
| ActionService.ActionService.constructor | src/modules/action/action.service.ts:14-19 | the service uses the given store and configuration |
| ActionService.ActionService.MarkPaidXenditDeposits | src/modules/action/action.service.ts:21-47 | the new store is the old one with each examined row marked; a failed lookup leaves its row untouched |
| ActionService.WithdrawalRunCompletesOnlyAccepted | src/modules/action/action.service.ts:200-273 | a withdrawal run keeps the row's identity, and changes its status only to COMPLETED, only on an ACCEPTED payout for a row that already had both ids |
| ActionService.WithdrawalTakesThreeRuns | src/modules/action/action.service.ts:203-273 | because each step is guarded on the row as read, a fresh withdrawal sells on the first run, creates the payout on the second and completes on the third |
| ActionService.ActionService.ProcessSinglePaidTransaction | src/modules/action/action.service.ts:49-275 | only this row changes. An unsettled deposit is written once by its patch after the buy, or not at all on an error. When the buy and the token rounding succeed, the referral lookup returns the wallet's first paid deposit; otherwise no lookup is made. A settled deposit is left alone, and a withdrawal ends as its run says |
| ActionService.ActionService.SettleDeposit | src/modules/action/action.service.ts:55-197 | the only write is the single patch after the buy. Whenever the buy and the token rounding succeed, so that the lookup runs, its result is the wallet's first paid deposit, even if the referral rounding then fails. Otherwise no lookup is made. An error leaves the store unchanged |
| ActionService.ActionService.SettleWithdrawal | src/modules/action/action.service.ts:200-274 | the row ends as the three-step run says, and no other row changes |
| ActionService.PaidStep | src/modules/action/action.service.ts:284-290 | one pass of the PAID loop keeps earlier rows settled, rows not PAID untouched and later rows as listed |
| ActionService.ActionService.ProcessPaidTransactions | src/modules/action/action.service.ts:277-291 | every PAID row is settled on its own and an error in one does not stop the others; other rows are unchanged |
| ActionService.ActionService.FindClaimable | src/modules/action/action.service.ts:305-329 | it finds the first listed transfer the row may claim, or none if every transfer is claimed, already held or not a match |
| ActionService.HashBindKeepsUnique | src/modules/action/action.service.ts:306-326 | binding a hash no row holds keeps hashes unique across rows |
| ActionService.StatusChangeKeepsUnique | src/modules/action/action.service.ts:345-349 | a status change keeps hashes unique |
| ActionService.BindStep | src/modules/action/action.service.ts:304-330 | one pass of the WAITING loop keeps every row bound as allowed and the later rows as listed |
| ActionService.NoClaimLeft | src/modules/action/action.service.ts:305-328 | a row that can claim no transfer has every paying transfer taken in this pass or held before it |
| ActionService.BindLedgerStep | src/modules/action/action.service.ts:304-330 | one pass of the WAITING loop keeps the taken hashes and the bound rows in step |
| ActionService.BindPassEnds | src/modules/action/action.service.ts:300-330 | at the end of the WAITING loop every taken hash is held by a row bound in it, and an unbound WAITING withdrawal had nothing left to claim |
| ActionService.ActionService.BindOne | src/modules/action/action.service.ts:305-329 | a WAITING withdrawal is bound as PENDING to the first listed transfer it may claim against the store before the call, and that hash is taken. It is left alone exactly when no listed transfer is claimable |
| ActionService.ActionService.BindWaiting | src/modules/action/action.service.ts:298-330 | listed below |
| ActionService.ConfirmStep | src/modules/action/action.service.ts:336-385 | one pass of the PENDING loop keeps the allowed changes, PAID-on-confirmation for earlier rows, and the later rows as listed |
| ActionService.HeldPersists | src/modules/action/action.service.ts:353-383 | a hash held when a row's turn comes was held before the pass or is still held after that turn |
| ActionService.StaleStep | src/modules/action/action.service.ts:353-383 | one pass of the PENDING loop keeps, for every earlier stale row left as it was, that each paying transfer was used, held before the pass or held now |
| ActionService.ConfirmLoopStep | src/modules/action/action.service.ts:336-385 | one pass of the PENDING loop keeps the whole loop invariant `ConfirmedUpTo` |
| ActionService.ConfirmPassEnds | src/modules/action/action.service.ts:332-385 | at the end of the PENDING loop every listed confirmed hash is PAID, and every stale row left as it was had nothing to claim |
| ActionService.ActionService.RebindStale | src/modules/action/action.service.ts:353-383 | a PENDING row whose hash is no longer listed is rebound to the first transfer it may claim against the store before the call. A failed lookup of that transfer ends the job, and otherwise the row is PAID exactly when the transfer is confirmed. When nothing is claimable, the row and the store are unchanged |
| ActionService.ActionService.ConfirmOne | src/modules/action/action.service.ts:336-385 | a row without a hash is skipped. A row whose hash is still listed keeps it and becomes PAID if and only if confirmed. A row whose hash is no longer listed is handled as `RebindStale` states |
| ActionService.ActionService.ConfirmPending | src/modules/action/action.service.ts:332-385 | every PENDING row changes at most as allowed and hashes stay unique. A rebound stale row is PAID exactly when its new transfer is confirmed. A finished pass makes every listed and confirmed hash PAID, and a stale row it leaves as it was had every paying transfer used, or held before or after the pass |
| ActionService.PassesSettle | src/modules/action/action.service.ts:293-386 | the two passes together change a row only as the whole job may |
| ActionService.BoundRowConfirmed | src/modules/action/action.service.ts:304-385 | a row the first pass binds to a transfer is PAID by the second pass exactly when that transfer is confirmed, and stays PENDING when the id is empty |
| ActionService.JobLeavesNothingFor | src/modules/action/action.service.ts:298-385 | a WAITING withdrawal the job leaves alone had every paying transfer already held or bound during the job |
| ActionService.StaleJobLeavesNothing | src/modules/action/action.service.ts:298-385 | a stale PENDING row the job leaves alone had every paying transfer held before the job or after it |
| ActionService.ActionService.CheckBitcoinPayments | src/modules/action/action.service.ts:293-386 | listed below |

Details for three of the rows above:
- `BtcService.BtcService.SendBtcBulkToUsers`:
  - No new block, or no deposits, returns "" and builds nothing.
  - A transfer is built exactly when the fetches succeed and some UTXO prefix covers `totalSend` plus its fee. Its inputs are the shortest such prefix, its fee is that prefix's clamped estimate, and its outputs are the payouts in order plus a change output to the dev address when the change is positive.
  - When every counted referral amount has an address, inputs equal outputs plus fee.
  - A failed height fetch, or after a new block with deposits a failed fee or UTXO fetch, is the request error and builds nothing.
  - An empty UTXO list is the `No UTXOs available` error.
  - The not-enough-UTXOs error comes exactly when the fetches succeed, the list is non-empty and no prefix covers the payouts plus its fee.
  - `lastBlockHeight` changes, to the new height, only after a successful broadcast.
- `ActionService.ActionService.BindWaiting`:
  - A WAITING withdrawal changes only by becoming PENDING with the hash of a listed transfer that pays for it.
  - Hashes stay unique.
  - Every hash taken is held by a row bound in this pass, and every bound row holds a taken hash.
  - A WAITING withdrawal left unbound had no paying transfer left.
- `ActionService.ActionService.CheckBitcoinPayments`:
  - A failed listing changes nothing.
  - Otherwise every row changes only as the job may: a WAITING withdrawal to PENDING, PENDING to PAID on a confirmed hash, and a new hash only from a listed transfer paying for the row.
  - Hashes stay unique.
  - For a WAITING withdrawal the job leaves alone, every listed transfer paying for it was held before the job or is held by a row the job changed.
  - A finished job makes every PENDING withdrawal with a listed confirmed hash PAID.
  - A PENDING withdrawal whose hash is no longer listed either keeps its row unchanged or gets a new hash. With a new hash it is PAID exactly when that transfer is confirmed.
  - In a finished job, such a stale row left unchanged had every listed transfer paying for it held before the job or after it.
  - In a finished job, a WAITING withdrawal that gets a new hash holds a listed transfer's id. It is PAID in the same run exactly when that transfer is confirmed. If the id is empty, the second pass skips the row and it stays PENDING.

## Left out

Outside the model:
- **External calls.** The HTTP clients are left out: the payment gateway, the exchange's order and price calls (`getTokenToIdrPrice` included), the mempool explorer and the mirror node. All are oracle parameters.
- **Signing and serialisation.** PSBT signing, serialisation and broadcast, and Hedera freeze/sign/execute, are left out: they are foreign calls and cryptography. The model keeps the inputs, outputs and fee the BTC builder decides, and the Hedera transfer list.
- **Constructors.** The environment-variable checks and the exception objects they throw are left out. The constructors only record the operator id, the dev address and the starting field values.
- **Schedulers.** The timers that run the jobs (transaction-processor.service.ts and xendit-processor.service.ts) are not part of this model. Each job is a method, and nothing models the order in which jobs interleave.
- **Concurrency.** The store is accessed one call at a time. Concurrent jobs, transactions and database errors are left out.
- **Read order.** `findMany` returns rows in an unspecified order. The model proves each job for any listing order.
- **`findFirst` ties.** With `orderBy createdAt asc`, a tie may return any of the earliest rows.
- **Other services.** The rebalancing service, the payment-gateway and Indodax clients, the bank-account validator, and the controller and DTO layers are not part of this model.
- **Floating point.** The model uses exact arithmetic, so IEEE-754 effects are left out: `toFixed(6)`, `Math.round(x·1e8)`, the `1e-8` tolerance on doubles, `Number(amount)/1e8`, and `new Hbar(-total)` on a double. The amount match is exact `|a − b| < 1e-8` on reals.
- **Timestamps.** Record timestamps are integers of milliseconds, not ISO strings. The age check at action.service.ts:311 reads such a string back, so the two agree for every date the `Date` type can hold.
- **Unparseable numbers.** Amounts that `parseFloat` reads from request text arrive as a `real`, so text that parses to NaN is not modelled. The seconds part of a Hedera timestamp is read as plain decimal digits, with the empty string as 0. `Number`'s handling of whitespace, signs and exponents is not modelled.

Narrowed or simplified:
- **Prices.** A price is a positive real (the type `Price`). A zero or negative exchange price, which divides by zero in `buyTokenFromBinance`, is not modelled.
- **Missing fee constants.** An internal-fee band is modelled with both MAX and MIN present. A MAX without MIN, which is NaN in the source, is not modelled. An undefined `OPERATIONAL_TO_INDODAX` in the sell is an error (`MissingFee`) instead of NaN arithmetic.
- **Ignored third argument.** The third argument `true` that callers pass to `roundToBinanceStep` has no effect in the source and is not modelled.
- **Response objects.** The `instruction` objects HTTP responses return, `updatedAt`, and the logging are left out.
- **`Invalid state`.** The final return (transaction-management.service.ts:310) is unreachable once the type has been validated, so it is not modelled.
- **Undefined operational fee at planning.** The withdrawal plan counts an undefined `OPERATIONAL_TO_INDODAX` as 0, as line 220 writes it. The sell that follows treats the same constant as an error.
- **One clock reading.** Each job takes one `nowMs`; the source reads `Date.now()` separately for each transfer.

Contracts stated weaker than the source's promise:
- ActionService.ActionService.ProcessPaidTransactions: a PAID deposit is stated as unchanged, or settled once with its status kept, rather than equal to its `DepositPatch`. The referral lookup depends on the rows the loop has already written; the exact outcome of one row is `ProcessSinglePaidTransaction`'s contract.
- ActionService.ActionService.BindWaiting: it does not state which claimable transfer is bound. That it is the first one in list order, against the store at that row's turn, is stated per row by `BindOne`.
- ActionService.ActionService.ConfirmPending: which claimable transfer a stale row is rebound to is stated per row by `RebindStale`, against the store at that row's turn, not for the whole pass.
- ActionService.ActionService.CheckBitcoinPayments: like `ConfirmPending`, it states that a rebound stale row pays for the row and is PAID exactly on confirmation, but not which claimable transfer it got.
- ActionService.ActionService.ConfirmPending: PAID on a listed confirmed hash is stated only for a pass that finishes. A failed confirmation lookup ends the job, as the source's exception does, and leaves later rows unvisited.
- BtcService.BtcService.SendBtcBulkToUsers: it builds the referral output with the referral amount, the corrected behaviour of the finding below. `BtcService.PayoutOutputsAsWritten` keeps the source's version.
- HederaService.HederaService.SendHBulkToUsers: the credits are shown to sum to the debit only when every amount is a whole number of tinybars, because `Math.round` is applied to each credit.

## Findings

| source | as written | input that shows it | evidently intended | confidence | as-written member | corrected member |
|---|---|---|---|---|---|---|
| src/modules/wallet-management/btc/btc.service.ts:92-96 | the referral output is given the deposit's main amount, `btcAmount`, although `totalSend` (lines 47-51) counts the referral amount `refBtcAmount` | one deposit of 0.001 BTC with a referral of 0.0001 BTC: outputs total 200000 sat while `totalSend` is 110000 sat, so the change computed at line 71 leaves the transaction 90000 sat short | the referral output carries `floor(refBtcAmount·1e8)`, so the outputs sum to `totalSend` | not executed | BtcService.PayoutOutputsAsWritten, BtcService.ReferralOutputAsWrittenOverpays | BtcService.PayoutOutputs, BtcService.PayoutsSumToTotal |
