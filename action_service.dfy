/** action.service.ts: the scheduled jobs that move Transaction rows through
    their statuses. The store is the shared TransactionService; the payment
    gateway, the exchange and the chain are oracle parameters giving the reply
    to each call (`Failed` or `None` when the call throws). */
module ActionService {
  import opened Wrappers
  import opened Records
  import opened FeeConst
  import opened BinanceHelper
  import opened BinanceService
  import opened TransactionManagement
  import opened ActionFees

  // ---------------------------------------------------- gateway: mark paid

  /** The rows markPaidXenditDeposits asks the gateway about. */
  predicate AwaitsGateway(t: Transaction) {
    t.status == Waiting && t.txType == Deposit && t.xenditTxId.Some?
  }

  const AwaitingGateway: Where :=
    NoFilter.(txType := Some(Deposit), statusIn := Some({Waiting}), xenditTxIdNotNull := true)

  /** A row's state after the gateway check: PAID exactly when its payment
      request reports SUCCEEDED; a failed check leaves it for the next run. */
  function MarkRow(t: Transaction, statusOf: string -> Fetch<Option<string>>): Transaction {
    if AwaitsGateway(t) && statusOf(t.xenditTxId.value) == Got(Some("SUCCEEDED")) then t.(status := Paid) else t
  }

  function MarkedPaid(txs: map<Id, Transaction>, statusOf: string -> Fetch<Option<string>>)
    : map<Id, Transaction>
  {
    map id | id in txs :: MarkRow(txs[id], statusOf)
  }

  /** Running the job twice changes nothing more: a row it marks is PAID and
      no longer awaits the gateway. */
  lemma MarkedPaidIdempotent(txs: map<Id, Transaction>, statusOf: string -> Fetch<Option<string>>)
    ensures MarkedPaid(MarkedPaid(txs, statusOf), statusOf) == MarkedPaid(txs, statusOf)
  {
    var once := MarkedPaid(txs, statusOf);
    forall id | id in once
      ensures MarkRow(once[id], statusOf) == once[id]
    {
    }
  }

  /** The job only ever turns a WAITING deposit into a PAID one, and only on SUCCEEDED. */
  lemma MarkedPaidOnlyPays(txs: map<Id, Transaction>, statusOf: string -> Fetch<Option<string>>, id: Id)
    requires id in txs
    ensures var t := MarkedPaid(txs, statusOf)[id];
      && (t != txs[id] <==> AwaitsGateway(txs[id]) && statusOf(txs[id].xenditTxId.value) == Got(Some("SUCCEEDED")))
      && (t != txs[id] ==> t == txs[id].(status := Paid))
  {
  }

  // ---------------------------------------------------- paid: settle a row

  /** The replies processSinglePaidTransaction gets for one row. */
  datatype PaidReplies = PaidReplies(
    price: Option<Price>,                // getTokenToIdrPrice (for a deposit: inside the buy)
    order: Option<nat>,                  // marketBuy's order id
    sellPrice: Option<Price>,            // getTokenToIdrPrice inside the sell
    sellOrder: Option<nat>,              // marketSell's order id
    payout: Fetch<string>,               // createPayout's id
    payoutStatus: Fetch<Option<string>>) // getPayout's status

  /** One row's state after a step, and whether the run went on. */
  datatype Run = Run(row: Transaction, completed: bool)

  /** The withdrawal leg of lines 200-273. Each of the three steps is guarded
      on the row as it was read before the run (`tx`), not on what the earlier
      steps wrote; an error ends the run and keeps what was already written. */
  function WithdrawalRun(tx: Transaction, cfg: Config, replies: PaidReplies): Run {
    if tx.paymentDetails.None? then Run(tx, true)
    else
      var sold :=
        if WithdrawalUnsold(tx) then
          match WithdrawalPatch(tx, cfg, replies.price, replies.sellPrice, replies.sellOrder)
          case Err(_) => Run(tx, false)
          case Ok(p) => Run(Apply(tx, p), true)
        else Run(tx, true);
      if !sold.completed then sold
      else
        var paidOut :=
          if !Present(tx.xenditTxId) && PresentInt(tx.idrAmount) then
            match replies.payout
            case Failed => Run(sold.row, false)
            case Got(id) => Run(sold.row.(xenditTxId := Some(id)), true)
          else sold;
        if !paidOut.completed then paidOut
        else if Present(tx.cexTxId) && Present(tx.xenditTxId) then
          match replies.payoutStatus
          case Failed => Run(paidOut.row, false)
          case Got(st) => if st == Some("ACCEPTED") then Run(paidOut.row.(status := Completed), true) else paidOut
        else paidOut
  }

  /** A run never changes the row's identity, and COMPLETED is reached only on
      a payout the gateway reports ACCEPTED, for a row that already had both
      an exchange order and a payout when the run began. */
  lemma WithdrawalRunCompletesOnlyAccepted(tx: Transaction, cfg: Config, replies: PaidReplies)
    ensures var r := WithdrawalRun(tx, cfg, replies).row;
      && r.id == tx.id && r.txType == tx.txType && r.walletAddress == tx.walletAddress
      && r.tokenType == tx.tokenType && r.createdAt == tx.createdAt && r.tokenAmount == tx.tokenAmount
      && (r.status != tx.status ==>
            r.status == Completed && replies.payoutStatus == Got(Some("ACCEPTED"))
            && Present(tx.cexTxId) && Present(tx.xenditTxId))
  {
  }

  /** Because the steps look at the row as it was read, a fresh PAID withdrawal
      needs three runs: the first sells, the second creates the payout, the
      third completes it. */
  lemma WithdrawalTakesThreeRuns(tx: Transaction, cfg: Config, replies: PaidReplies)
    requires tx.paymentDetails.Some? && tx.status == Paid
    requires tx.cexTxId.None? && tx.idrAmount.None? && tx.xenditTxId.None?
    requires WithdrawalPatch(tx, cfg, replies.price, replies.sellPrice, replies.sellOrder).Ok?
    requires WithdrawalPatch(tx, cfg, replies.price, replies.sellPrice, replies.sellOrder).value.idrAmount
             != Put(Some(0))
    requires replies.payout.Got? && replies.payout.body != ""
    requires replies.payoutStatus == Got(Some("ACCEPTED"))
    ensures var r1 := WithdrawalRun(tx, cfg, replies).row;
            var r2 := WithdrawalRun(r1, cfg, replies).row;
            var r3 := WithdrawalRun(r2, cfg, replies).row;
      && r1.status == Paid && Present(r1.cexTxId) && PresentInt(r1.idrAmount) && r1.xenditTxId.None?
      && r2.status == Paid && r2.xenditTxId == Some(replies.payout.body)
      && r3.status == Completed
  {
  }

  /** Only row `id` may have changed. */
  predicate OnlyRowChanged(before: map<Id, Transaction>, after: map<Id, Transaction>, id: Id) {
    before.Keys == after.Keys && forall k :: k in before && k != id ==> after[k] == before[k]
  }

  /** `first` is what the lookup of lines 154-164 may return. */
  predicate IsFirstPaid(txs: map<Id, Transaction>, tx: Transaction, first: Option<Transaction>) {
    var w := EffectiveWhere("", FirstPaidQuery(tx));
    && (first.None? <==> forall k :: k in txs ==> !Matches(w, txs[k]))
    && (first.Some? ==> first.value in txs.Values && Matches(w, first.value)
                        && forall k :: k in txs && Matches(w, txs[k]) ==> first.value.createdAt <= txs[k].createdAt)
  }

  // ---------------------------------------------------- bitcoin: bind incoming

  /** The checks of lines 313-318 that concern the row: the sender is the
      row's wallet, the amount agrees within 1e-8 and the transfer is recent. */
  predicate PaysFor(inc: Incoming, tx: Transaction, nowMs: int, maxAgeMs: int) {
    && inc.from == tx.walletAddress
    && -0.00000001 < inc.amount - tx.tokenAmount.GetOr(0.0) < 0.00000001
    && nowMs - inc.timestampMs <= maxAgeMs
  }

  /** No row holds the hash yet. */
  predicate HashFree(txs: map<Id, Transaction>, h: string) {
    forall k :: k in txs ==> txs[k].txHash != Some(h)
  }

  /** A row's transfer is one the job may bind to it. */
  predicate Claimable(txs: map<Id, Transaction>, used: set<string>, inc: Incoming, tx: Transaction,
                      nowMs: int, maxAgeMs: int) {
    HashFree(txs, inc.txid) && inc.txid !in used && PaysFor(inc, tx, nowMs, maxAgeMs)
  }

  /** `ins[k]` is the first listed transfer row `tx` may claim: both loops over
      the listing (lines 305-328 and 353-382) stop at the first match. */
  predicate FirstClaimable(txs: map<Id, Transaction>, used: set<string>, ins: seq<Incoming>, k: nat,
                           tx: Transaction, nowMs: int, maxAgeMs: int) {
    && k < |ins| && Claimable(txs, used, ins[k], tx, nowMs, maxAgeMs)
    && forall j :: 0 <= j < k ==> !Claimable(txs, used, ins[j], tx, nowMs, maxAgeMs)
  }

  /** No two rows hold the same transaction hash. */
  predicate UniqueHashes(txs: map<Id, Transaction>) {
    forall a, b :: a in txs && b in txs && a != b && txs[a].txHash.Some? ==> txs[a].txHash != txs[b].txHash
  }

  /** `h` is the id of a transfer in `ins` that pays for row `o`. */
  predicate BoundTo(ins: seq<Incoming>, h: string, o: Transaction, nowMs: int, maxAgeMs: int) {
    exists j :: 0 <= j < |ins| && ins[j].txid == h && PaysFor(ins[j], o, nowMs, maxAgeMs)
  }

  /** What checkBitcoinPayments may do to one row: only a WAITING or PENDING
      withdrawal changes, and only in status and hash; a new hash is that of a
      listed transfer paying for the row; the status moves to PENDING, or to
      PAID on a confirmed hash. */
  predicate SettlesByChain(o: Transaction, n: Transaction, ins: seq<Incoming>, nowMs: int, maxAgeMs: int,
                           confirmedOf: string -> Fetch<bool>) {
    && n == o.(status := n.status, txHash := n.txHash)
    && (n != o ==> o.txType == Withdrawal && o.status in {Waiting, Pending})
    && (n.txHash != o.txHash ==> n.txHash.Some? && BoundTo(ins, n.txHash.value, o, nowMs, maxAgeMs))
    && (n.status != o.status ==>
          || (n.status == Pending && o.status == Waiting)
          || (n.status == Paid && n.txHash.Some? && confirmedOf(n.txHash.value) == Got(true)))
  }

  /** What the first pass (lines 304-330) may do to a row: bind a WAITING
      withdrawal to a transfer paying for it and make it PENDING. */
  predicate BindsWaiting(o: Transaction, n: Transaction, ins: seq<Incoming>, nowMs: int, maxAgeMs: int) {
    || n == o
    || (&& o.txType == Withdrawal && o.status == Waiting
        && n == o.(status := Pending, txHash := n.txHash)
        && n.txHash.Some? && BoundTo(ins, n.txHash.value, o, nowMs, maxAgeMs))
  }

  /** `h` is the id of a listed transfer (the `find` of line 339). */
  predicate Listed(ins: seq<Incoming>, h: string) {
    exists j :: 0 <= j < |ins| && ins[j].txid == h
  }

  /** A PENDING withdrawal whose hash is present but no longer listed: the
      second pass looks for another transfer for it (lines 353-382). */
  predicate StalePending(o: Transaction, ins: seq<Incoming>) {
    o.txType == Withdrawal && o.status == Pending && Present(o.txHash) && !Listed(ins, o.txHash.value)
  }

  /** A stale PENDING row keeps its hash only by being left as it was; once
      rebound it is PAID exactly when the new transfer is confirmed. */
  predicate RebindsStale(o: Transaction, n: Transaction, ins: seq<Incoming>, confirmedOf: string -> Fetch<bool>) {
    StalePending(o, ins) ==>
      if n.txHash == o.txHash then n == o
      else n.txHash.Some? && (n.status == Paid <==> confirmedOf(n.txHash.value) == Got(true))
  }

  /** Every listed transfer paying for `o` was not there for it to claim: it
      was taken by the first pass, or some row held it before or holds it after. */
  predicate NoneClaimableFor(before: map<Id, Transaction>, after: map<Id, Transaction>, used: set<string>,
                             ins: seq<Incoming>, o: Transaction, nowMs: int, maxAgeMs: int) {
    forall j :: 0 <= j < |ins| && PaysFor(ins[j], o, nowMs, maxAgeMs) ==>
      ins[j].txid in used || !HashFree(before, ins[j].txid) || !HashFree(after, ins[j].txid)
  }

  /** What the second pass (lines 336-385) may do to a row: rebind a PENDING
      withdrawal to a transfer paying for it, and make it PAID on a confirmed
      hash. A row without a hash is skipped, one whose hash is still listed
      keeps it, and a rebound one is PAID exactly on a confirmed transfer. */
  predicate ConfirmsPending(o: Transaction, n: Transaction, ins: seq<Incoming>, nowMs: int, maxAgeMs: int,
                            confirmedOf: string -> Fetch<bool>) {
    && n == o.(status := n.status, txHash := n.txHash)
    && (n != o ==> o.txType == Withdrawal && o.status == Pending)
    && (!Present(o.txHash) ==> n == o)
    && (Present(o.txHash) && Listed(ins, o.txHash.value) ==> n.txHash == o.txHash)
    && (n.txHash != o.txHash ==> n.txHash.Some? && BoundTo(ins, n.txHash.value, o, nowMs, maxAgeMs))
    && (n.status != o.status ==> n.status == Paid && n.txHash.Some? && confirmedOf(n.txHash.value) == Got(true))
    && RebindsStale(o, n, ins, confirmedOf)
  }

  /** A PENDING withdrawal whose listed hash is confirmed becomes PAID. */
  predicate PaidWhenConfirmed(o: Transaction, n: Transaction, ins: seq<Incoming>,
                              confirmedOf: string -> Fetch<bool>) {
    && o.txType == Withdrawal && o.status == Pending && Present(o.txHash) && Listed(ins, o.txHash.value)
    && confirmedOf(o.txHash.value) == Got(true)
    ==> n == o.(status := Paid)
  }

  /** A WAITING withdrawal the first pass bound to a transfer: the new hash is
      a listed transfer's id, and the row is PAID by the same run exactly when
      that transfer is confirmed. A bound empty id is skipped by the second
      pass, so that row stays PENDING. */
  predicate PaidInSameRun(o: Transaction, n: Transaction, ins: seq<Incoming>,
                          confirmedOf: string -> Fetch<bool>) {
    o.txType == Withdrawal && o.status == Waiting && n.txHash != o.txHash ==>
      && n.txHash.Some? && Listed(ins, n.txHash.value)
      && (Present(n.txHash) ==> (n.status == Paid <==> confirmedOf(n.txHash.value) == Got(true)))
      && (!Present(n.txHash) ==> n.status == Pending)
  }

  /** The two passes, one row at a time: a row bound by the first is settled
      by the second when its transfer is confirmed. */
  lemma BoundRowConfirmed(o: Transaction, m: Transaction, n: Transaction, ins: seq<Incoming>,
                          nowMs: int, maxAgeMs: int, confirmedOf: string -> Fetch<bool>)
    requires BindsWaiting(o, m, ins, nowMs, maxAgeMs)
    requires ConfirmsPending(m, n, ins, nowMs, maxAgeMs, confirmedOf)
    requires PaidWhenConfirmed(m, n, ins, confirmedOf)
    ensures PaidInSameRun(o, n, ins, confirmedOf)
  {
    if o.txType == Withdrawal && o.status == Waiting && n.txHash != o.txHash {
      assert m != o;
      var j :| 0 <= j < |ins| && ins[j].txid == m.txHash.value && PaysFor(ins[j], o, nowMs, maxAgeMs);
      assert Listed(ins, m.txHash.value);
    }
  }

  /** A listed transfer paying for `o` that is not left to claim: each was
      taken in this pass or was already held by a row before it. */
  predicate NothingLeftFor(txs0: map<Id, Transaction>, used: set<string>, ins: seq<Incoming>, o: Transaction,
                           nowMs: int, maxAgeMs: int) {
    forall j :: 0 <= j < |ins| && PaysFor(ins[j], o, nowMs, maxAgeMs) ==>
      ins[j].txid in used || !HashFree(txs0, ins[j].txid)
  }

  /** Every row the pass changed holds a hash it took. */
  predicate BoundInUsed(txs0: map<Id, Transaction>, txs: map<Id, Transaction>, used: set<string>) {
    forall id :: id in txs0 && id in txs && txs[id] != txs0[id] ==>
      txs[id].txHash.Some? && txs[id].txHash.value in used
  }

  /** Every hash taken so far is held by a row listed before `i` that the pass changed. */
  predicate UsedByBound(rows: seq<Transaction>, i: nat, txs: map<Id, Transaction>, used: set<string>) {
    forall h :: h in used ==>
      exists j :: 0 <= j < i && j < |rows| && rows[j].id in txs && txs[rows[j].id] != rows[j]
                  && txs[rows[j].id].txHash == Some(h)
  }

  /** Rows listed before `i` that the pass left alone had nothing left to claim. */
  predicate LeftAlone(txs0: map<Id, Transaction>, rows: seq<Transaction>, i: nat, txs: map<Id, Transaction>,
                      used: set<string>, ins: seq<Incoming>, nowMs: int, maxAgeMs: int) {
    forall j :: 0 <= j < i && j < |rows| && rows[j].id in txs && txs[rows[j].id] == rows[j] ==>
      NothingLeftFor(txs0, used, ins, rows[j], nowMs, maxAgeMs)
  }

  /** A row for which no listed transfer is claimable has nothing left to
      claim: a hash some row holds is either held since before the pass or
      was taken in it. */
  lemma NoClaimLeft(txs0: map<Id, Transaction>, txs: map<Id, Transaction>, used: set<string>,
                    ins: seq<Incoming>, o: Transaction, nowMs: int, maxAgeMs: int)
    requires txs.Keys == txs0.Keys && BoundInUsed(txs0, txs, used)
    requires forall m :: 0 <= m < |ins| ==> !Claimable(txs, used, ins[m], o, nowMs, maxAgeMs)
    ensures NothingLeftFor(txs0, used, ins, o, nowMs, maxAgeMs)
  {
    forall m | 0 <= m < |ins| && PaysFor(ins[m], o, nowMs, maxAgeMs)
      ensures ins[m].txid in used || !HashFree(txs0, ins[m].txid)
    {
      if ins[m].txid !in used {
        assert !HashFree(txs, ins[m].txid);
        var k :| k in txs && txs[k].txHash == Some(ins[m].txid);
        assert txs[k] == txs0[k];
      }
    }
  }

  /** One pass of the WAITING loop keeps the hash bookkeeping: the taken
      hashes and the bound rows stay in step, and a row left alone stays
      with nothing to claim. */
  lemma BindLedgerStep(txs0: map<Id, Transaction>, before: map<Id, Transaction>, after: map<Id, Transaction>,
                       rows: seq<Transaction>, i: nat, usedB: set<string>, usedA: set<string>,
                       ins: seq<Incoming>, nowMs: int, maxAgeMs: int)
    requires i < |rows| && forall a, b :: 0 <= a < b < |rows| ==> rows[a].id != rows[b].id
    requires OnlyRowChanged(before, after, rows[i].id) && before.Keys == txs0.Keys
    requires forall j :: 0 <= j < |rows| ==> rows[j].id in txs0 && txs0[rows[j].id] == rows[j]
    requires usedB <= usedA
    requires BoundInUsed(txs0, before, usedB) && UsedByBound(rows, i, before, usedB)
    requires LeftAlone(txs0, rows, i, before, usedB, ins, nowMs, maxAgeMs)
    requires before[rows[i].id] == rows[i]
    requires after[rows[i].id] != rows[i] ==>
      after[rows[i].id].txHash.Some? && after[rows[i].id].txHash.value in usedA
    requires forall h :: h in usedA && h !in usedB ==>
      after[rows[i].id] != rows[i] && after[rows[i].id].txHash == Some(h)
    requires after[rows[i].id] == rows[i] ==> NothingLeftFor(txs0, usedA, ins, rows[i], nowMs, maxAgeMs)
    ensures BoundInUsed(txs0, after, usedA) && UsedByBound(rows, i + 1, after, usedA)
    ensures LeftAlone(txs0, rows, i + 1, after, usedA, ins, nowMs, maxAgeMs)
  {
    forall id | id in txs0 && id in after && after[id] != txs0[id]
      ensures after[id].txHash.Some? && after[id].txHash.value in usedA
    {
      if id != rows[i].id {
        assert after[id] == before[id];
      }
    }
    forall h | h in usedA
      ensures exists j :: 0 <= j < i + 1 && j < |rows| && rows[j].id in after && after[rows[j].id] != rows[j]
                          && after[rows[j].id].txHash == Some(h)
    {
      if h in usedB {
        var j :| 0 <= j < i && j < |rows| && rows[j].id in before && before[rows[j].id] != rows[j]
                 && before[rows[j].id].txHash == Some(h);
        assert rows[j].id != rows[i].id;
        assert after[rows[j].id] == before[rows[j].id];
      } else {
        assert rows[i].id in after;
      }
    }
    forall j | 0 <= j < i + 1 && j < |rows| && rows[j].id in after && after[rows[j].id] == rows[j]
      ensures NothingLeftFor(txs0, usedA, ins, rows[j], nowMs, maxAgeMs)
    {
      if j < i {
        assert rows[j].id != rows[i].id;
        assert before[rows[j].id] == rows[j];
        assert NothingLeftFor(txs0, usedB, ins, rows[j], nowMs, maxAgeMs);
      }
    }
  }

  /** At the end of the WAITING loop over all the WAITING withdrawals, the
      bookkeeping speaks of the rows by id. */
  lemma BindPassEnds(txs0: map<Id, Transaction>, txs: map<Id, Transaction>, w: Where, rows: seq<Transaction>,
                     used: set<string>, ins: seq<Incoming>, nowMs: int, maxAgeMs: int)
    requires WellKeyed(txs0) && txs.Keys == txs0.Keys
    requires w == NoFilter.(txType := Some(Withdrawal), statusIn := Some({Waiting}))
    requires forall t :: t in rows <==> t in txs0.Values && Matches(w, t)
    requires forall j :: 0 <= j < |rows| ==> rows[j].id in txs0 && txs0[rows[j].id] == rows[j]
    requires UsedByBound(rows, |rows|, txs, used)
    requires LeftAlone(txs0, rows, |rows|, txs, used, ins, nowMs, maxAgeMs)
    ensures forall h :: h in used ==>
      exists id :: id in txs0 && txs[id] != txs0[id] && txs[id].txHash == Some(h)
    ensures forall id :: id in txs0 && txs0[id].txType == Withdrawal && txs0[id].status == Waiting
                         && txs[id] == txs0[id] ==>
      NothingLeftFor(txs0, used, ins, txs0[id], nowMs, maxAgeMs)
  {
    forall h | h in used
      ensures exists id :: id in txs0 && txs[id] != txs0[id] && txs[id].txHash == Some(h)
    {
      var j :| 0 <= j < |rows| && rows[j].id in txs && txs[rows[j].id] != rows[j]
               && txs[rows[j].id].txHash == Some(h);
      assert txs0[rows[j].id] == rows[j];
    }
    forall id | id in txs0 && txs0[id].txType == Withdrawal && txs0[id].status == Waiting && txs[id] == txs0[id]
      ensures NothingLeftFor(txs0, used, ins, txs0[id], nowMs, maxAgeMs)
    {
      assert Matches(w, txs0[id]) && txs0[id] in txs0.Values;
      var j :| 0 <= j < |rows| && rows[j] == txs0[id];
    }
  }

  /** Every listed transfer paying for `o` is held by a row: one that held it
      before the job, or one the job changed. */
  predicate NothingLeftUnbound(txs0: map<Id, Transaction>, txs: map<Id, Transaction>, ins: seq<Incoming>,
                               o: Transaction, nowMs: int, maxAgeMs: int) {
    forall j :: 0 <= j < |ins| && PaysFor(ins[j], o, nowMs, maxAgeMs) ==>
      || !HashFree(txs0, ins[j].txid)
      || exists k :: k in txs0 && k in txs && txs[k] != txs0[k] && txs[k].txHash == Some(ins[j].txid)
  }

  /** A WAITING withdrawal the whole job leaves alone had nothing to claim: a
      hash the first pass took stays with its row through the second pass,
      because that row's hash is still listed. */
  lemma JobLeavesNothingFor(txs0: map<Id, Transaction>, txs1: map<Id, Transaction>, txs2: map<Id, Transaction>,
                            used: set<string>, ins: seq<Incoming>, id: Id, nowMs: int, maxAgeMs: int,
                            confirmedOf: string -> Fetch<bool>)
    requires txs1.Keys == txs0.Keys && txs2.Keys == txs0.Keys
    requires forall k :: k in txs0 ==> BindsWaiting(txs0[k], txs1[k], ins, nowMs, maxAgeMs)
    requires forall k :: k in txs0 ==> ConfirmsPending(txs1[k], txs2[k], ins, nowMs, maxAgeMs, confirmedOf)
    requires forall h :: h in used ==> exists k :: k in txs0 && txs1[k] != txs0[k] && txs1[k].txHash == Some(h)
    requires forall k :: k in txs0 && txs0[k].txType == Withdrawal && txs0[k].status == Waiting && txs1[k] == txs0[k]
                         ==> NothingLeftFor(txs0, used, ins, txs0[k], nowMs, maxAgeMs)
    requires id in txs0 && txs0[id].txType == Withdrawal && txs0[id].status == Waiting && txs2[id] == txs0[id]
    ensures NothingLeftUnbound(txs0, txs2, ins, txs0[id], nowMs, maxAgeMs)
  {
    assert txs1[id] == txs0[id];
    forall j | 0 <= j < |ins| && PaysFor(ins[j], txs0[id], nowMs, maxAgeMs) && HashFree(txs0, ins[j].txid)
      ensures exists k :: k in txs0 && k in txs2 && txs2[k] != txs0[k] && txs2[k].txHash == Some(ins[j].txid)
    {
      var h := ins[j].txid;
      assert h in used;
      var k :| k in txs0 && txs1[k] != txs0[k] && txs1[k].txHash == Some(h);
      var m :| 0 <= m < |ins| && ins[m].txid == h && PaysFor(ins[m], txs0[k], nowMs, maxAgeMs);
      assert Listed(ins, h);
      assert txs1[k].status == Pending && txs0[k].status == Waiting;
      assert txs2[k].txHash == Some(h);
    }
  }

  /** A stale PENDING withdrawal the whole job leaves alone had nothing to
      claim: every transfer paying for it was held before the job or is held
      after it, because a hash the first pass took stays with its row. */
  lemma StaleJobLeavesNothing(txs0: map<Id, Transaction>, txs1: map<Id, Transaction>, txs2: map<Id, Transaction>,
                              used: set<string>, ins: seq<Incoming>, id: Id, nowMs: int, maxAgeMs: int,
                              confirmedOf: string -> Fetch<bool>)
    requires txs1.Keys == txs0.Keys && txs2.Keys == txs0.Keys
    requires forall k :: k in txs0 ==> BindsWaiting(txs0[k], txs1[k], ins, nowMs, maxAgeMs)
    requires forall k :: k in txs0 ==> ConfirmsPending(txs1[k], txs2[k], ins, nowMs, maxAgeMs, confirmedOf)
    requires forall h :: h in used ==> exists k :: k in txs0 && txs1[k] != txs0[k] && txs1[k].txHash == Some(h)
    requires id in txs0 && StalePending(txs0[id], ins) && txs2[id] == txs0[id]
    requires NoneClaimableFor(txs1, txs2, used, ins, txs1[id], nowMs, maxAgeMs)
    ensures NoneClaimableFor(txs0, txs2, {}, ins, txs0[id], nowMs, maxAgeMs)
  {
    assert txs1[id] == txs0[id];
    forall j | 0 <= j < |ins| && PaysFor(ins[j], txs0[id], nowMs, maxAgeMs) && HashFree(txs0, ins[j].txid)
      ensures !HashFree(txs2, ins[j].txid)
    {
      var h := ins[j].txid;
      var k: Id;
      if h in used {
        k :| k in txs0 && txs1[k] != txs0[k] && txs1[k].txHash == Some(h);
      } else if !HashFree(txs1, h) {
        k :| k in txs1 && txs1[k].txHash == Some(h);
        assert txs1[k] != txs0[k];
      }
      if h in used || !HashFree(txs1, h) {
        assert txs1[k].status == Pending && txs1[k].txHash == Some(h);
        var m :| 0 <= m < |ins| && ins[m].txid == h && PaysFor(ins[m], txs0[k], nowMs, maxAgeMs);
        assert Listed(ins, h);
        assert txs2[k].txHash == Some(h);
      }
    }
  }

  /** The two passes together settle a row as the whole job may. */
  lemma PassesSettle(o: Transaction, m: Transaction, n: Transaction, ins: seq<Incoming>, nowMs: int,
                     maxAgeMs: int, confirmedOf: string -> Fetch<bool>)
    requires BindsWaiting(o, m, ins, nowMs, maxAgeMs)
    requires ConfirmsPending(m, n, ins, nowMs, maxAgeMs, confirmedOf)
    ensures SettlesByChain(o, n, ins, nowMs, maxAgeMs, confirmedOf)
  {
    if n.txHash != o.txHash {
      if n.txHash != m.txHash {
        var j :| 0 <= j < |ins| && ins[j].txid == n.txHash.value && PaysFor(ins[j], m, nowMs, maxAgeMs);
        assert PaysFor(ins[j], o, nowMs, maxAgeMs);
      }
    }
  }

  /** Binding a hash no row holds keeps the hashes unique. */
  lemma HashBindKeepsUnique(before: map<Id, Transaction>, after: map<Id, Transaction>, id: Id, h: string,
                            status: Status)
    requires id in before && HashFree(before, h)
    requires after == before[id := before[id].(status := status, txHash := Some(h))]
    ensures UniqueHashes(before) ==> UniqueHashes(after)
  {
  }

  /** A status change keeps the hashes unique. */
  lemma StatusChangeKeepsUnique(before: map<Id, Transaction>, after: map<Id, Transaction>, id: Id,
                                status: Status)
    requires id in before && after == before[id := before[id].(status := status)]
    ensures UniqueHashes(before) ==> UniqueHashes(after)
  {
  }

  /** Rows from `i` on are still as the listing returned them. */
  predicate RowsAhead(rows: seq<Transaction>, i: nat, txs: map<Id, Transaction>) {
    forall j :: i <= j < |rows| ==> rows[j].id in txs && txs[rows[j].id] == rows[j]
  }

  /** One pass of the WAITING loop keeps every row related to its start and
      leaves the rows still ahead untouched. */
  lemma BindStep(txs0: map<Id, Transaction>, before: map<Id, Transaction>, after: map<Id, Transaction>,
                 rows: seq<Transaction>, i: nat, ins: seq<Incoming>, nowMs: int, maxAgeMs: int)
    requires i < |rows| && forall a, b :: 0 <= a < b < |rows| ==> rows[a].id != rows[b].id
    requires OnlyRowChanged(before, after, rows[i].id) && before.Keys == txs0.Keys
    requires rows[i].id in txs0 && txs0[rows[i].id] == rows[i]
    requires forall id :: id in txs0 ==> BindsWaiting(txs0[id], before[id], ins, nowMs, maxAgeMs)
    requires RowsAhead(rows, i, before)
    requires BindsWaiting(rows[i], after[rows[i].id], ins, nowMs, maxAgeMs)
    ensures forall id :: id in txs0 ==> BindsWaiting(txs0[id], after[id], ins, nowMs, maxAgeMs)
    ensures RowsAhead(rows, i + 1, after)
  {
    forall id | id in txs0
      ensures BindsWaiting(txs0[id], after[id], ins, nowMs, maxAgeMs)
    {
      if id != rows[i].id {
        assert after[id] == before[id];
      }
    }
    forall j | i + 1 <= j < |rows|
      ensures rows[j].id in after && after[rows[j].id] == rows[j]
    {
      assert rows[j].id != rows[i].id;
    }
  }

  /** One pass of the PENDING loop keeps every row related to its start and
      leaves the rows still ahead untouched. */
  lemma ConfirmStep(txs0: map<Id, Transaction>, before: map<Id, Transaction>, after: map<Id, Transaction>,
                    rows: seq<Transaction>, i: nat, ins: seq<Incoming>, nowMs: int, maxAgeMs: int,
                    confirmedOf: string -> Fetch<bool>)
    requires i < |rows| && forall a, b :: 0 <= a < b < |rows| ==> rows[a].id != rows[b].id
    requires OnlyRowChanged(before, after, rows[i].id) && before.Keys == txs0.Keys
    requires rows[i].id in txs0 && txs0[rows[i].id] == rows[i]
    requires forall id :: id in txs0 ==> ConfirmsPending(txs0[id], before[id], ins, nowMs, maxAgeMs, confirmedOf)
    requires RowsAhead(rows, i, before)
    requires ConfirmsPending(rows[i], after[rows[i].id], ins, nowMs, maxAgeMs, confirmedOf)
    requires forall j :: 0 <= j < |rows| ==> rows[j].id in txs0
    requires forall j :: 0 <= j < i ==> PaidWhenConfirmed(rows[j], before[rows[j].id], ins, confirmedOf)
    requires PaidWhenConfirmed(rows[i], after[rows[i].id], ins, confirmedOf)
    ensures forall id :: id in txs0 ==> ConfirmsPending(txs0[id], after[id], ins, nowMs, maxAgeMs, confirmedOf)
    ensures RowsAhead(rows, i + 1, after)
    ensures forall j :: 0 <= j < i + 1 ==> PaidWhenConfirmed(rows[j], after[rows[j].id], ins, confirmedOf)
  {
    forall j | 0 <= j < i
      ensures PaidWhenConfirmed(rows[j], after[rows[j].id], ins, confirmedOf)
    {
      assert rows[j].id != rows[i].id;
      assert after[rows[j].id] == before[rows[j].id];
    }
    forall id | id in txs0
      ensures ConfirmsPending(txs0[id], after[id], ins, nowMs, maxAgeMs, confirmedOf)
    {
      if id != rows[i].id {
        assert after[id] == before[id];
      }
    }
    forall j | i + 1 <= j < |rows|
      ensures rows[j].id in after && after[rows[j].id] == rows[j]
    {
      assert rows[j].id != rows[i].id;
    }
  }

  /** A hash some row held before a step of the PENDING loop is still held
      after it, or was held at the start: the one row the step changes was
      still as it was at the start. */
  lemma HeldPersists(txs0: map<Id, Transaction>, before: map<Id, Transaction>, after: map<Id, Transaction>,
                     id: Id, h: string)
    requires OnlyRowChanged(before, after, id) && id in txs0 && id in before && before[id] == txs0[id]
    requires !HashFree(before, h)
    ensures !HashFree(txs0, h) || !HashFree(after, h)
  {
    var k :| k in before && before[k].txHash == Some(h);
    if k != id {
      assert after[k] == before[k];
    }
  }

  /** One step of the PENDING loop keeps, for every stale row already visited
      and left alone, that it had nothing to claim. */
  lemma StaleStep(txs0: map<Id, Transaction>, before: map<Id, Transaction>, after: map<Id, Transaction>,
                  rows: seq<Transaction>, i: nat, used: set<string>, ins: seq<Incoming>, nowMs: int, maxAgeMs: int)
    requires i < |rows| && forall a, b :: 0 <= a < b < |rows| ==> rows[a].id != rows[b].id
    requires OnlyRowChanged(before, after, rows[i].id) && before.Keys == txs0.Keys
    requires forall j :: 0 <= j < |rows| ==> rows[j].id in txs0
    requires rows[i].id in txs0 && txs0[rows[i].id] == rows[i] && RowsAhead(rows, i, before)
    requires forall j :: 0 <= j < i && StalePending(rows[j], ins) && before[rows[j].id] == rows[j] ==>
      NoneClaimableFor(txs0, before, used, ins, rows[j], nowMs, maxAgeMs)
    requires StalePending(rows[i], ins) && after[rows[i].id] == rows[i] ==>
      forall m :: 0 <= m < |ins| ==> !Claimable(before, used, ins[m], rows[i], nowMs, maxAgeMs)
    ensures forall j :: 0 <= j < i + 1 && StalePending(rows[j], ins) && after[rows[j].id] == rows[j] ==>
      NoneClaimableFor(txs0, after, used, ins, rows[j], nowMs, maxAgeMs)
  {
    var id := rows[i].id;
    forall j, m | 0 <= j < i + 1 && StalePending(rows[j], ins) && after[rows[j].id] == rows[j]
                  && 0 <= m < |ins| && PaysFor(ins[m], rows[j], nowMs, maxAgeMs)
                  && ins[m].txid !in used && HashFree(txs0, ins[m].txid)
      ensures !HashFree(after, ins[m].txid)
    {
      if j < i {
        assert rows[j].id != id;
        assert before[rows[j].id] == rows[j];
      }
      assert !HashFree(before, ins[m].txid);
      HeldPersists(txs0, before, after, id, ins[m].txid);
    }
  }

  /** What the PENDING loop keeps after the first `i` listed rows: every row
      changed only as the pass may, hashes stay unique, the rows still ahead
      are as listed, and each visited row was settled or had nothing to claim. */
  predicate ConfirmedUpTo(txs0: map<Id, Transaction>, txs: map<Id, Transaction>, rows: seq<Transaction>, i: nat,
                          used: set<string>, ins: seq<Incoming>, nowMs: int, maxAgeMs: int,
                          confirmedOf: string -> Fetch<bool>) {
    && i <= |rows| && txs.Keys == txs0.Keys
    && (forall j :: 0 <= j < |rows| ==> rows[j].id in txs)
    && RowsAhead(rows, i, txs)
    && (forall id :: id in txs0 ==> ConfirmsPending(txs0[id], txs[id], ins, nowMs, maxAgeMs, confirmedOf))
    && (UniqueHashes(txs0) ==> UniqueHashes(txs))
    && (forall j :: 0 <= j < i ==> PaidWhenConfirmed(rows[j], txs[rows[j].id], ins, confirmedOf))
    && (forall j :: 0 <= j < i && StalePending(rows[j], ins) && txs[rows[j].id] == rows[j] ==>
          NoneClaimableFor(txs0, txs, used, ins, rows[j], nowMs, maxAgeMs))
  }

  /** One step of the PENDING loop, from what `ConfirmOne` promises. */
  lemma ConfirmLoopStep(txs0: map<Id, Transaction>, before: map<Id, Transaction>, after: map<Id, Transaction>,
                        rows: seq<Transaction>, i: nat, used: set<string>, ins: seq<Incoming>, nowMs: int,
                        maxAgeMs: int, confirmedOf: string -> Fetch<bool>)
    requires i < |rows| && forall a, b :: 0 <= a < b < |rows| ==> rows[a].id != rows[b].id
    requires forall j :: 0 <= j < |rows| ==> rows[j].id in txs0 && txs0[rows[j].id] == rows[j]
    requires ConfirmedUpTo(txs0, before, rows, i, used, ins, nowMs, maxAgeMs, confirmedOf)
    requires OnlyRowChanged(before, after, rows[i].id)
    requires ConfirmsPending(rows[i], after[rows[i].id], ins, nowMs, maxAgeMs, confirmedOf)
    requires UniqueHashes(before) ==> UniqueHashes(after)
    requires PaidWhenConfirmed(rows[i], after[rows[i].id], ins, confirmedOf)
    requires StalePending(rows[i], ins) && after[rows[i].id] == rows[i] ==>
      forall m :: 0 <= m < |ins| ==> !Claimable(before, used, ins[m], rows[i], nowMs, maxAgeMs)
    ensures ConfirmedUpTo(txs0, after, rows, i + 1, used, ins, nowMs, maxAgeMs, confirmedOf)
  {
    ConfirmStep(txs0, before, after, rows, i, ins, nowMs, maxAgeMs, confirmedOf);
    StaleStep(txs0, before, after, rows, i, used, ins, nowMs, maxAgeMs);
  }

  /** After the whole PENDING loop, what holds for every listed row holds for
      every PENDING withdrawal of the store. */
  lemma ConfirmPassEnds(txs0: map<Id, Transaction>, txs: map<Id, Transaction>, rows: seq<Transaction>,
                        used: set<string>, ins: seq<Incoming>, nowMs: int, maxAgeMs: int,
                        confirmedOf: string -> Fetch<bool>)
    requires WellKeyed(txs0)
    requires forall id :: id in txs0 && txs0[id].txType == Withdrawal && txs0[id].status == Pending ==>
      exists j :: 0 <= j < |rows| && rows[j] == txs0[id]
    requires forall j :: 0 <= j < |rows| ==> rows[j].id in txs && rows[j].txType == Withdrawal && rows[j].status == Pending
    requires txs.Keys == txs0.Keys
    requires forall j :: 0 <= j < |rows| ==> PaidWhenConfirmed(rows[j], txs[rows[j].id], ins, confirmedOf)
    requires forall j :: 0 <= j < |rows| && StalePending(rows[j], ins) && txs[rows[j].id] == rows[j] ==>
      NoneClaimableFor(txs0, txs, used, ins, rows[j], nowMs, maxAgeMs)
    ensures forall id :: id in txs0 ==> PaidWhenConfirmed(txs0[id], txs[id], ins, confirmedOf)
    ensures forall id :: id in txs0 && StalePending(txs0[id], ins) && txs[id] == txs0[id] ==>
      NoneClaimableFor(txs0, txs, used, ins, txs0[id], nowMs, maxAgeMs)
  {
    forall id | id in txs0
      ensures PaidWhenConfirmed(txs0[id], txs[id], ins, confirmedOf)
      ensures StalePending(txs0[id], ins) && txs[id] == txs0[id] ==>
        NoneClaimableFor(txs0, txs, used, ins, txs0[id], nowMs, maxAgeMs)
    {
      if txs0[id].txType == Withdrawal && txs0[id].status == Pending {
        var j :| 0 <= j < |rows| && rows[j] == txs0[id];
        assert rows[j].id == id;
      }
    }
  }

  /** One pass of the PAID loop: rows already settled stay settled, rows not
      PAID stay as they were, and the rows still ahead are untouched. */
  lemma PaidStep(txs0: map<Id, Transaction>, before: map<Id, Transaction>, after: map<Id, Transaction>,
                 rows: seq<Transaction>, i: nat, cfg: Config, repliesOf: Id -> PaidReplies)
    requires i < |rows| && forall a, b :: 0 <= a < b < |rows| ==> rows[a].id != rows[b].id
    requires OnlyRowChanged(before, after, rows[i].id) && before.Keys == txs0.Keys
    requires forall j :: 0 <= j < |rows| ==> rows[j].id in txs0
    requires txs0[rows[i].id] == rows[i] && rows[i].status == Paid
    requires forall j :: 0 <= j < i ==> SettledPaid(rows[j], before[rows[j].id], cfg, repliesOf(rows[j].id))
    requires forall id :: id in txs0 && txs0[id].status != Paid ==> before[id] == txs0[id]
    requires RowsAhead(rows, i, before)
    requires SettledPaid(rows[i], after[rows[i].id], cfg, repliesOf(rows[i].id))
    ensures forall j :: 0 <= j < i + 1 ==> SettledPaid(rows[j], after[rows[j].id], cfg, repliesOf(rows[j].id))
    ensures forall id :: id in txs0 && txs0[id].status != Paid ==> after[id] == txs0[id]
    ensures RowsAhead(rows, i + 1, after)
  {
    forall j | 0 <= j < i
      ensures SettledPaid(rows[j], after[rows[j].id], cfg, repliesOf(rows[j].id))
    {
      assert rows[j].id != rows[i].id;
      assert after[rows[j].id] == before[rows[j].id];
    }
    forall j | i + 1 <= j < |rows|
      ensures rows[j].id in after && after[rows[j].id] == rows[j]
    {
      assert rows[j].id != rows[i].id;
    }
  }

  /** A PAID row after processPaidTransactions: a withdrawal as its run leaves
      it; a deposit as it was, or settled once with its status kept. */
  predicate SettledPaid(o: Transaction, n: Transaction, cfg: Config, replies: PaidReplies) {
    && (o.txType == Withdrawal ==> n == WithdrawalRun(o, cfg, replies).row)
    && (o.txType == Deposit ==>
          || n == o
          || (&& DepositUnsettled(o) && !DepositUnsettled(n)
              && n == o.(cexTxId := n.cexTxId, tokenAmount := n.tokenAmount,
                         refAddress := n.refAddress, refAmount := n.refAmount)))
  }


  class ActionService {
    const store: TransactionService
    const cfg: Config

    constructor(store: TransactionService, cfg: Config)
      ensures this.store == store && this.cfg == cfg
    {
      this.store := store;
      this.cfg := cfg;
    }

    /** markPaidXenditDeposits(): each WAITING deposit with a payment request
        is asked about; a failed request is skipped. */
    method MarkPaidXenditDeposits(statusOf: string -> Fetch<Option<string>>)
      requires store.Valid()
      modifies store
      ensures store.Valid()
      ensures store.txs == MarkedPaid(old(store.txs), statusOf)
    {
      ghost var txs0 := store.txs;
      var rows := store.GetTransactions(AwaitingGateway);
      ghost var done: set<Id> := {};
      var i := 0;
      while i < |rows|
        invariant 0 <= i <= |rows|
        invariant store.Valid() && store.txs.Keys == txs0.Keys
        invariant forall j :: 0 <= j < i ==> rows[j].id in done
        invariant forall j :: i <= j < |rows| ==> rows[j].id !in done
        invariant forall id :: id in txs0 ==> store.txs[id] == if id in done then MarkRow(txs0[id], statusOf) else txs0[id]
      {
        var t := rows[i];
        assert t in txs0.Values && Matches(AwaitingGateway, t);
        assert txs0[t.id] == t;
        var reply := statusOf(t.xenditTxId.value);
        if reply == Got(Some("SUCCEEDED")) {
          var _ := store.UpdateTransaction(t.id, NoChange.(status := Put(Paid)));
        }
        done := done + {t.id};
        i := i + 1;
      }
      forall id | id in txs0
        ensures store.txs[id] == MarkRow(txs0[id], statusOf)
      {
        if AwaitsGateway(txs0[id]) {
          assert Matches(AwaitingGateway, txs0[id]) && txs0[id] in txs0.Values;
          var j :| 0 <= j < |rows| && rows[j] == txs0[id];
        }
      }
    }

    /** processSinglePaidTransaction(tx) for a row read from the store. A
        deposit is settled once, written at the end, or not at all; `first` is
        the earlier paid deposit the referral lookup found, if it ran. */
    method ProcessSinglePaidTransaction(tx: Transaction, replies: PaidReplies)
      returns (completed: bool, first: Option<Transaction>)
      requires store.Valid() && tx.id in store.txs && store.txs[tx.id] == tx
      modifies store
      ensures store.Valid()
      ensures OnlyRowChanged(old(store.txs), store.txs, tx.id)
      ensures tx.txType == Deposit && DepositUnsettled(tx) ==>
        match DepositPatch(tx, first, cfg, replies.price, replies.order)
        case Ok(p) => IsFirstPaid(old(store.txs), tx, first) && completed
                      && store.txs[tx.id] == Apply(tx, p)
        case Err(_) => !completed && store.txs == old(store.txs)
      ensures tx.txType == Deposit && DepositUnsettled(tx) ==>
        (ReachesReferralLookup(tx, cfg, replies.price, replies.order) ==> IsFirstPaid(old(store.txs), tx, first))
        && (!ReachesReferralLookup(tx, cfg, replies.price, replies.order) ==> first.None?)
      ensures tx.txType == Deposit && !DepositUnsettled(tx) ==> completed && store.txs == old(store.txs)
      ensures tx.txType == Withdrawal ==>
        completed == WithdrawalRun(tx, cfg, replies).completed
        && store.txs[tx.id] == WithdrawalRun(tx, cfg, replies).row
    {
      if tx.txType == Deposit {
        if !DepositUnsettled(tx) {
          return true, None;
        }
        completed, first := SettleDeposit(tx, replies);
      } else {
        completed := SettleWithdrawal(tx, replies);
        first := None;
      }
    }

    /** The deposit leg of lines 55-197 for a row not yet bought for. */
    method SettleDeposit(tx: Transaction, replies: PaidReplies) returns (completed: bool, first: Option<Transaction>)
      requires store.Valid() && tx.id in store.txs && store.txs[tx.id] == tx
      requires tx.txType == Deposit && DepositUnsettled(tx)
      modifies store
      ensures store.Valid()
      ensures OnlyRowChanged(old(store.txs), store.txs, tx.id)
      ensures match DepositPatch(tx, first, cfg, replies.price, replies.order)
        case Ok(p) => IsFirstPaid(old(store.txs), tx, first) && completed
                      && store.txs[tx.id] == Apply(tx, p)
        case Err(_) => !completed && store.txs == old(store.txs)
      ensures ReachesReferralLookup(tx, cfg, replies.price, replies.order) ==> IsFirstPaid(old(store.txs), tx, first)
      ensures !ReachesReferralLookup(tx, cfg, replies.price, replies.order) ==> first.None?
    {
      first := None;
      var c := Constants(cfg, tx.tokenType);
      var idr := tx.idrAmount.GetOr(0);
      var pm := if tx.paymentDetails.Some? then Field(tx.paymentDetails.value, "method") else "";
      var q := QuoteDeposit(idr, pm, c.deposit, cfg.sharing, cfg.referral);
      var bought := BuyTokenFromBinance(tx.tokenType, q.idrTotal, replies.price, replies.order);
      if bought.Err? {
        return false, None;
      }
      var receipt := bought.value;
      var tokenUser := TokenUser(q, receipt.tokenAmount, c.internalFees, idr, tx.tokenType);
      if tokenUser.Err? {
        return false, None;
      }
      first := store.GetSingleTransactionById("", FirstPaidQuery(tx));
      var o := ResolveReferral(tx.refAddress, first, cfg.lifetimeReferrers);
      var refAmount: Option<real> := None;
      if o.rewarded {
        var x := RoundToBinanceStep(Share(q.idrRef, q.idrTotal, receipt.tokenAmount), tx.tokenType);
        if x.Err? {
          return false, first;
        }
        refAmount := Some(x.value);
      }
      var p := NoChange.(cexTxId := Put(Some(receipt.cexTxId)), tokenAmount := Put(Some(tokenUser.value)),
                         refAddress := Put(o.refAddress), refAmount := Put(refAmount));
      assert DepositPatch(tx, first, cfg, replies.price, replies.order) == Ok(p);
      var _ := store.UpdateTransaction(tx.id, p);
      return true, first;
    }

    /** The withdrawal leg of lines 200-273: sell, pay out, complete, each
        step guarded on the row as it was read. */
    method SettleWithdrawal(tx: Transaction, replies: PaidReplies) returns (completed: bool)
      requires store.Valid() && tx.id in store.txs && store.txs[tx.id] == tx
      requires tx.txType == Withdrawal
      modifies store
      ensures store.Valid()
      ensures OnlyRowChanged(old(store.txs), store.txs, tx.id)
      ensures completed == WithdrawalRun(tx, cfg, replies).completed
      ensures store.txs[tx.id] == WithdrawalRun(tx, cfg, replies).row
    {
      if tx.paymentDetails.None? {
        return true;
      }
      if WithdrawalUnsold(tx) {
        var p := WithdrawalPatch(tx, cfg, replies.price, replies.sellPrice, replies.sellOrder);
        if p.Err? {
          return false;
        }
        var _ := store.UpdateTransaction(tx.id, p.value);
      }
      if !Present(tx.xenditTxId) && PresentInt(tx.idrAmount) {
        match replies.payout
        case Failed =>
          return false;
        case Got(id) =>
          var _ := store.UpdateTransaction(tx.id, NoChange.(xenditTxId := Put(Some(id))));
      }
      if Present(tx.cexTxId) && Present(tx.xenditTxId) {
        match replies.payoutStatus
        case Failed =>
          return false;
        case Got(st) =>
          if st == Some("ACCEPTED") {
            var _ := store.UpdateTransaction(tx.id, NoChange.(status := Put(Completed)));
          }
      }
      return true;
    }

    /** processPaidTransactions(): every PAID row is processed once, in no
        particular order; an error in one row is caught and the next goes on. */
    method ProcessPaidTransactions(repliesOf: Id -> PaidReplies)
      requires store.Valid()
      modifies store
      ensures store.Valid() && store.txs.Keys == old(store.txs).Keys
      ensures forall id :: id in old(store.txs) ==>
        var o := old(store.txs)[id];
        && (o.status != Paid ==> store.txs[id] == o)
        && (o.status == Paid ==> SettledPaid(o, store.txs[id], cfg, repliesOf(id)))
    {
      ghost var txs0 := store.txs;
      var w := NoFilter.(statusIn := Some({Paid}));
      var rows := store.GetTransactions(w);
      forall j | 0 <= j < |rows|
        ensures rows[j].status == Paid && rows[j].id in txs0 && txs0[rows[j].id] == rows[j]
      {
        assert rows[j] in txs0.Values && Matches(w, rows[j]);
      }
      var i := 0;
      while i < |rows|
        invariant 0 <= i <= |rows|
        invariant store.Valid() && store.txs.Keys == txs0.Keys
        invariant RowsAhead(rows, i, store.txs)
        invariant forall j :: 0 <= j < i ==> SettledPaid(rows[j], store.txs[rows[j].id], cfg, repliesOf(rows[j].id))
        invariant forall id :: id in txs0 && txs0[id].status != Paid ==> store.txs[id] == txs0[id]
      {
        var t := rows[i];
        ghost var before := store.txs;
        var _, first := ProcessSinglePaidTransaction(t, repliesOf(t.id));
        if t.txType == Deposit && DepositUnsettled(t) {
          var p := DepositPatch(t, first, cfg, repliesOf(t.id).price, repliesOf(t.id).order);
          if p.Ok? {
            DepositSettledOnce(t, first, cfg, repliesOf(t.id).price, repliesOf(t.id).order);
          }
        }
        PaidStep(txs0, before, store.txs, rows, i, cfg, repliesOf);
        i := i + 1;
      }
      forall id | id in txs0 && txs0[id].status == Paid
        ensures SettledPaid(txs0[id], store.txs[id], cfg, repliesOf(id))
      {
        assert Matches(w, txs0[id]) && txs0[id] in txs0.Values;
        var j :| 0 <= j < |rows| && rows[j] == txs0[id];
      }
    }

    /** The inner loop of lines 305-329 and 353-383: the first listed transfer
        the row may claim, checking the store for each transfer's hash. */
    method FindClaimable(tx: Transaction, ins: seq<Incoming>, used: set<string>, nowMs: int)
      returns (k: Option<nat>)
      requires store.Valid()
      ensures k.Some? ==> k.value < |ins| && Claimable(store.txs, used, ins[k.value], tx, nowMs, cfg.maxTxAgeMs)
      ensures k.Some? ==> forall j :: 0 <= j < k.value ==> !Claimable(store.txs, used, ins[j], tx, nowMs, cfg.maxTxAgeMs)
      ensures k.None? ==> forall j :: 0 <= j < |ins| ==> !Claimable(store.txs, used, ins[j], tx, nowMs, cfg.maxTxAgeMs)
    {
      var j := 0;
      while j < |ins|
        invariant 0 <= j <= |ins|
        invariant forall m :: 0 <= m < j ==> !Claimable(store.txs, used, ins[m], tx, nowMs, cfg.maxTxAgeMs)
      {
        var alreadyUsed := store.GetSingleTransactionById("", Some(FindArgs(Some(NoFilter.(txHash := Some(ins[j].txid))), false)));
        if alreadyUsed.None? && ins[j].txid !in used && PaysFor(ins[j], tx, nowMs, cfg.maxTxAgeMs) {
          return Some(j);
        }
        j := j + 1;
      }
      return None;
    }

    /** The first pass: each WAITING withdrawal is bound to the first transfer
        it may claim, and a hash bound here is not bound again in this pass. */
    method BindWaiting(ins: seq<Incoming>, nowMs: int) returns (used: set<string>)
      requires store.Valid()
      modifies store
      ensures store.Valid() && store.txs.Keys == old(store.txs).Keys
      ensures forall id :: id in old(store.txs) ==> BindsWaiting(old(store.txs)[id], store.txs[id], ins, nowMs, cfg.maxTxAgeMs)
      ensures UniqueHashes(old(store.txs)) ==> UniqueHashes(store.txs)
      ensures BoundInUsed(old(store.txs), store.txs, used)
      ensures forall h :: h in used ==>
        exists id :: id in old(store.txs) && store.txs[id] != old(store.txs)[id] && store.txs[id].txHash == Some(h)
      ensures forall id :: id in old(store.txs) && old(store.txs)[id].txType == Withdrawal
                           && old(store.txs)[id].status == Waiting && store.txs[id] == old(store.txs)[id] ==>
        NothingLeftFor(old(store.txs), used, ins, old(store.txs)[id], nowMs, cfg.maxTxAgeMs)
    {
      ghost var txs0 := store.txs;
      var w := NoFilter.(txType := Some(Withdrawal), statusIn := Some({Waiting}));
      var rows := store.GetTransactions(w);
      forall j | 0 <= j < |rows|
        ensures rows[j].txType == Withdrawal && rows[j].status == Waiting
        ensures rows[j].id in txs0 && txs0[rows[j].id] == rows[j]
      {
        assert rows[j] in txs0.Values && Matches(w, rows[j]);
      }
      used := {};
      var i := 0;
      while i < |rows|
        invariant 0 <= i <= |rows|
        invariant store.Valid() && store.txs.Keys == txs0.Keys
        invariant RowsAhead(rows, i, store.txs)
        invariant forall id :: id in txs0 ==> BindsWaiting(txs0[id], store.txs[id], ins, nowMs, cfg.maxTxAgeMs)
        invariant UniqueHashes(txs0) ==> UniqueHashes(store.txs)
        invariant BoundInUsed(txs0, store.txs, used) && UsedByBound(rows, i, store.txs, used)
        invariant LeftAlone(txs0, rows, i, store.txs, used, ins, nowMs, cfg.maxTxAgeMs)
      {
        var t := rows[i];
        ghost var before := store.txs;
        ghost var usedB := used;
        used := BindOne(txs0, t, ins, used, nowMs);
        BindStep(txs0, before, store.txs, rows, i, ins, nowMs, cfg.maxTxAgeMs);
        BindLedgerStep(txs0, before, store.txs, rows, i, usedB, used, ins, nowMs, cfg.maxTxAgeMs);
        i := i + 1;
      }
      BindPassEnds(txs0, store.txs, w, rows, used, ins, nowMs, cfg.maxTxAgeMs);
    }

    /** One WAITING row of the first pass: bound to the first transfer it may
        claim, whose hash joins `used`, or left alone with nothing to claim. */
    method BindOne(ghost txs0: map<Id, Transaction>, t: Transaction, ins: seq<Incoming>, used: set<string>,
                   nowMs: int) returns (usedA: set<string>)
      requires store.Valid() && t.id in store.txs && store.txs[t.id] == t
      requires t.txType == Withdrawal && t.status == Waiting
      requires store.txs.Keys == txs0.Keys && BoundInUsed(txs0, store.txs, used)
      modifies store
      ensures store.Valid() && OnlyRowChanged(old(store.txs), store.txs, t.id)
      ensures BindsWaiting(t, store.txs[t.id], ins, nowMs, cfg.maxTxAgeMs)
      ensures UniqueHashes(old(store.txs)) ==> UniqueHashes(store.txs)
      ensures used <= usedA
      ensures store.txs[t.id] != t ==> store.txs[t.id].txHash.Some? && store.txs[t.id].txHash.value in usedA
      ensures forall h :: h in usedA && h !in used ==> store.txs[t.id] != t && store.txs[t.id].txHash == Some(h)
      ensures store.txs[t.id] == t ==> NothingLeftFor(txs0, usedA, ins, t, nowMs, cfg.maxTxAgeMs)
      ensures store.txs[t.id] != t ==>
        exists k: nat :: FirstClaimable(old(store.txs), used, ins, k, t, nowMs, cfg.maxTxAgeMs)
                         && store.txs[t.id] == t.(status := Pending, txHash := Some(ins[k].txid))
      ensures store.txs[t.id] == t ==>
        forall j :: 0 <= j < |ins| ==> !Claimable(old(store.txs), used, ins[j], t, nowMs, cfg.maxTxAgeMs)
    {
      var k := FindClaimable(t, ins, used, nowMs);
      if k.Some? {
        var h := ins[k.value].txid;
        ghost var before := store.txs;
        var _ := store.UpdateTransaction(t.id, NoChange.(status := Put(Pending), txHash := Put(Some(h))));
        assert store.txs[t.id] == t.(status := Pending, txHash := Some(h));
        assert BoundTo(ins, h, t, nowMs, cfg.maxTxAgeMs);
        HashBindKeepsUnique(before, store.txs, t.id, h, Pending);
        usedA := used + {h};
      } else {
        NoClaimLeft(txs0, store.txs, used, ins, t, nowMs, cfg.maxTxAgeMs);
        usedA := used;
      }
    }

    /** The second pass. A row whose hash is still listed becomes PAID once
        confirmed; otherwise it is rebound to the first transfer it may claim
        and becomes PAID if that one is confirmed. A failed confirmation check
        ends the job. */
    method ConfirmPending(ins: seq<Incoming>, nowMs: int, used: set<string>, confirmedOf: string -> Fetch<bool>)
      returns (finished: bool)
      requires store.Valid()
      modifies store
      ensures store.Valid() && store.txs.Keys == old(store.txs).Keys
      ensures forall id :: id in old(store.txs) ==>
        ConfirmsPending(old(store.txs)[id], store.txs[id], ins, nowMs, cfg.maxTxAgeMs, confirmedOf)
      ensures UniqueHashes(old(store.txs)) ==> UniqueHashes(store.txs)
      ensures finished ==> forall id :: id in old(store.txs) ==>
        PaidWhenConfirmed(old(store.txs)[id], store.txs[id], ins, confirmedOf)
      ensures finished ==> forall id :: id in old(store.txs) && StalePending(old(store.txs)[id], ins)
                                        && store.txs[id] == old(store.txs)[id] ==>
        NoneClaimableFor(old(store.txs), store.txs, used, ins, old(store.txs)[id], nowMs, cfg.maxTxAgeMs)
    {
      ghost var txs0 := store.txs;
      var w := NoFilter.(txType := Some(Withdrawal), statusIn := Some({Pending}));
      var rows := store.GetTransactions(w);
      forall j | 0 <= j < |rows|
        ensures rows[j].txType == Withdrawal && rows[j].status == Pending
        ensures rows[j].id in txs0 && txs0[rows[j].id] == rows[j]
      {
        assert rows[j] in txs0.Values && Matches(w, rows[j]);
      }
      var i := 0;
      while i < |rows|
        invariant 0 <= i <= |rows|
        invariant store.Valid()
        invariant ConfirmedUpTo(txs0, store.txs, rows, i, used, ins, nowMs, cfg.maxTxAgeMs, confirmedOf)
      {
        var t := rows[i];
        ghost var before := store.txs;
        var ok := ConfirmOne(t, ins, nowMs, used, confirmedOf);
        ConfirmLoopStep(txs0, before, store.txs, rows, i, used, ins, nowMs, cfg.maxTxAgeMs, confirmedOf);
        if !ok {
          return false;
        }
        i := i + 1;
      }
      forall id | id in txs0 && txs0[id].txType == Withdrawal && txs0[id].status == Pending
        ensures exists j :: 0 <= j < |rows| && rows[j] == txs0[id]
      {
        assert Matches(w, txs0[id]) && txs0[id] in txs0.Values;
      }
      ConfirmPassEnds(txs0, store.txs, rows, used, ins, nowMs, cfg.maxTxAgeMs, confirmedOf);
      return true;
    }

    /** One PENDING row of the second pass. */
    method ConfirmOne(t: Transaction, ins: seq<Incoming>, nowMs: int, used: set<string>,
                      confirmedOf: string -> Fetch<bool>) returns (finished: bool)
      requires store.Valid() && t.id in store.txs && store.txs[t.id] == t
      requires t.txType == Withdrawal && t.status == Pending
      modifies store
      ensures store.Valid() && OnlyRowChanged(old(store.txs), store.txs, t.id)
      ensures ConfirmsPending(t, store.txs[t.id], ins, nowMs, cfg.maxTxAgeMs, confirmedOf)
      ensures UniqueHashes(old(store.txs)) ==> UniqueHashes(store.txs)
      ensures !Present(t.txHash) ==> finished && store.txs == old(store.txs)
      ensures Present(t.txHash) && Listed(ins, t.txHash.value) ==>
        && finished == confirmedOf(t.txHash.value).Got?
        && store.txs[t.id] == if confirmedOf(t.txHash.value) == Got(true) then t.(status := Paid) else t
      ensures PaidWhenConfirmed(t, store.txs[t.id], ins, confirmedOf)
      ensures StalePending(t, ins) ==>
        if exists j :: 0 <= j < |ins| && Claimable(old(store.txs), used, ins[j], t, nowMs, cfg.maxTxAgeMs) then
          exists k: nat :: FirstClaimable(old(store.txs), used, ins, k, t, nowMs, cfg.maxTxAgeMs)
            && finished == confirmedOf(ins[k].txid).Got?
            && store.txs[t.id]
               == t.(txHash := Some(ins[k].txid), status := if confirmedOf(ins[k].txid) == Got(true) then Paid else Pending)
        else finished && store.txs == old(store.txs)
      ensures StalePending(t, ins) && store.txs[t.id] == t ==>
        forall j :: 0 <= j < |ins| ==> !Claimable(old(store.txs), used, ins[j], t, nowMs, cfg.maxTxAgeMs)
    {
      if Present(t.txHash) {
        var h := t.txHash.value;
        var stillExists := Listed(ins, h);
        if stillExists {
          match confirmedOf(h)
          case Failed =>
            return false;
          case Got(confirmed) =>
            if confirmed {
              ghost var before := store.txs;
              var _ := store.UpdateTransaction(t.id, NoChange.(status := Put(Paid)));
              StatusChangeKeepsUnique(before, store.txs, t.id, Paid);
            }
        } else {
          finished := RebindStale(t, ins, nowMs, used, confirmedOf);
          return;
        }
      }
      return true;
    }

    /** A PENDING row whose hash is no longer listed: bind the first claimable
        transfer, then confirm it as for a listed hash (lines 353-383). */
    method RebindStale(t: Transaction, ins: seq<Incoming>, nowMs: int, used: set<string>,
                       confirmedOf: string -> Fetch<bool>) returns (finished: bool)
      requires store.Valid() && t.id in store.txs && store.txs[t.id] == t
      requires StalePending(t, ins)
      modifies store
      ensures store.Valid() && OnlyRowChanged(old(store.txs), store.txs, t.id)
      ensures ConfirmsPending(t, store.txs[t.id], ins, nowMs, cfg.maxTxAgeMs, confirmedOf)
      ensures UniqueHashes(old(store.txs)) ==> UniqueHashes(store.txs)
      ensures PaidWhenConfirmed(t, store.txs[t.id], ins, confirmedOf)
      ensures if exists j :: 0 <= j < |ins| && Claimable(old(store.txs), used, ins[j], t, nowMs, cfg.maxTxAgeMs) then
          exists k: nat :: FirstClaimable(old(store.txs), used, ins, k, t, nowMs, cfg.maxTxAgeMs)
            && finished == confirmedOf(ins[k].txid).Got?
            && store.txs[t.id]
               == t.(txHash := Some(ins[k].txid), status := if confirmedOf(ins[k].txid) == Got(true) then Paid else Pending)
        else finished && store.txs == old(store.txs)
      ensures store.txs[t.id] == t ==>
        forall j :: 0 <= j < |ins| ==> !Claimable(old(store.txs), used, ins[j], t, nowMs, cfg.maxTxAgeMs)
    {
      var k := FindClaimable(t, ins, used, nowMs);
      if k.Some? {
        var h2 := ins[k.value].txid;
        ghost var before := store.txs;
        var _ := store.UpdateTransaction(t.id, NoChange.(txHash := Put(Some(h2))));
        assert BoundTo(ins, h2, t, nowMs, cfg.maxTxAgeMs);
        HashBindKeepsUnique(before, store.txs, t.id, h2, t.status);
        match confirmedOf(h2)
        case Failed =>
          return false;
        case Got(confirmed) =>
          if confirmed {
            ghost var mid := store.txs;
            var _ := store.UpdateTransaction(t.id, NoChange.(status := Put(Paid)));
            StatusChangeKeepsUnique(mid, store.txs, t.id, Paid);
          }
      }
      return true;
    }

    /** checkBitcoinPayments(): list the transfers to the dev address, then
        the two passes over the withdrawal rows. */
    method CheckBitcoinPayments(incoming: Fetch<seq<Incoming>>, nowMs: int, confirmedOf: string -> Fetch<bool>)
      returns (finished: bool)
      requires store.Valid()
      modifies store
      ensures store.Valid() && store.txs.Keys == old(store.txs).Keys
      ensures incoming.Failed? ==> !finished && store.txs == old(store.txs)
      ensures incoming.Got? ==> forall id :: id in old(store.txs) ==>
        SettlesByChain(old(store.txs)[id], store.txs[id], incoming.body, nowMs, cfg.maxTxAgeMs, confirmedOf)
      ensures UniqueHashes(old(store.txs)) ==> UniqueHashes(store.txs)
      ensures incoming.Got? ==> forall id :: id in old(store.txs) && old(store.txs)[id].txType == Withdrawal
                                             && old(store.txs)[id].status == Waiting && store.txs[id] == old(store.txs)[id] ==>
        NothingLeftUnbound(old(store.txs), store.txs, incoming.body, old(store.txs)[id], nowMs, cfg.maxTxAgeMs)
      ensures incoming.Got? && finished ==> forall id :: id in old(store.txs) ==>
        PaidWhenConfirmed(old(store.txs)[id], store.txs[id], incoming.body, confirmedOf)
      ensures incoming.Got? && finished ==> forall id :: id in old(store.txs) ==>
        PaidInSameRun(old(store.txs)[id], store.txs[id], incoming.body, confirmedOf)
      ensures incoming.Got? ==> forall id :: id in old(store.txs) ==>
        RebindsStale(old(store.txs)[id], store.txs[id], incoming.body, confirmedOf)
      ensures incoming.Got? && finished ==> forall id ::
        id in old(store.txs) && StalePending(old(store.txs)[id], incoming.body) && store.txs[id] == old(store.txs)[id] ==>
        NoneClaimableFor(old(store.txs), store.txs, {}, incoming.body, old(store.txs)[id], nowMs, cfg.maxTxAgeMs)
    {
      if incoming.Failed? {
        return false;
      }
      var ins := incoming.body;
      ghost var txs0 := store.txs;
      var used := BindWaiting(ins, nowMs);
      ghost var txs1 := store.txs;
      finished := ConfirmPending(ins, nowMs, used, confirmedOf);
      forall id | id in txs0
        ensures SettlesByChain(txs0[id], store.txs[id], ins, nowMs, cfg.maxTxAgeMs, confirmedOf)
      {
        PassesSettle(txs0[id], txs1[id], store.txs[id], ins, nowMs, cfg.maxTxAgeMs, confirmedOf);
      }
      forall id | id in txs0 && txs0[id].txType == Withdrawal && txs0[id].status == Waiting && store.txs[id] == txs0[id]
        ensures NothingLeftUnbound(txs0, store.txs, ins, txs0[id], nowMs, cfg.maxTxAgeMs)
      {
        JobLeavesNothingFor(txs0, txs1, store.txs, used, ins, id, nowMs, cfg.maxTxAgeMs, confirmedOf);
      }
      forall id | id in txs0 && finished
        ensures PaidWhenConfirmed(txs0[id], store.txs[id], ins, confirmedOf)
      {
        if txs0[id].txType == Withdrawal && txs0[id].status == Pending {
          assert txs1[id] == txs0[id];
        }
      }
      forall id | id in txs0 && finished
        ensures PaidInSameRun(txs0[id], store.txs[id], ins, confirmedOf)
      {
        BoundRowConfirmed(txs0[id], txs1[id], store.txs[id], ins, nowMs, cfg.maxTxAgeMs, confirmedOf);
      }
      forall id | id in txs0
        ensures RebindsStale(txs0[id], store.txs[id], ins, confirmedOf)
      {
        if StalePending(txs0[id], ins) {
          assert txs1[id] == txs0[id];
        }
      }
      forall id | id in txs0 && finished && StalePending(txs0[id], ins) && store.txs[id] == txs0[id]
        ensures NoneClaimableFor(txs0, store.txs, {}, ins, txs0[id], nowMs, cfg.maxTxAgeMs)
      {
        assert txs1[id] == txs0[id];
        StaleJobLeavesNothing(txs0, txs1, store.txs, used, ins, id, nowMs, cfg.maxTxAgeMs, confirmedOf);
      }
    }
  }
}
