/** btc.service.ts: the Bitcoin adapter. The block, fee, UTXO, status and
    broadcast requests to the explorer are oracle parameters; signing and
    serialising the transaction are left to the library and not modelled. */
module BtcService {
  import opened Wrappers
  import opened Records

  datatype BtcError =
    | RequestFailed      // an explorer request threw (propagated unchanged)
    | NoUtxos            // "No UTXOs available"
    | NotEnoughUtxos     // "Not enough UTXOs"
    | BroadcastFailed    // the broadcast threw and was rethrown

  /** The pair `[hasNewBlock, height]` that monitorNewBlocks returns. */
  datatype BlockPoll = BlockPoll(isNew: bool, height: int)

  /** One entry of the bulk payout, as the caller builds it. */
  datatype BtcPayout = BtcPayout(
    btcAddress: string,
    btcAmount: real,
    refBtcAddress: Option<string>,
    refBtcAmount: Option<real>)

  /** An unspent output of the operational address, `value` in satoshis. */
  datatype Utxo = Utxo(txid: string, vout: nat, value: int)

  /** One output of the transaction, in satoshis. */
  datatype Output = Output(address: string, value: int)

  /** The transaction before signing: its inputs, its outputs and the fee left
      to the miners by construction. */
  datatype BtcTransfer = BtcTransfer(inputs: seq<Utxo>, outputs: seq<Output>, fee: int)

  /** The explorer's replies for one sendBTCBulkToUsers call. */
  datatype BtcReplies = BtcReplies(
    latestHeight: Fetch<int>,
    economyFee: Fetch<Option<real>>,
    utxos: Fetch<seq<Utxo>>,
    broadcast: Fetch<string>)

  /** `Math.floor(btc * 1e8)`. */
  function Satoshis(btc: real): int {
    (btc * 100000000.0).Floor
  }

  /** The fee rate in sat/vB: Math.ceil(economyFee || 1) clamped into [1, 2]. */
  function FeeRate(economyFee: Option<real>): (rate: int)
    ensures 1 <= rate <= 2
    ensures rate == 2 <==> PresentReal(economyFee) && economyFee.value > 1.0
  {
    var dynamicRate := if PresentReal(economyFee) then Ceil(economyFee.value) else 1;
    if dynamicRate > 2 then 2 else if dynamicRate < 1 then 1 else dynamicRate
  }

  /** The fee for k inputs and n payouts: 59 vB per input, 31 vB per output
      (one extra for the change) and 10 vB overhead, clamped into [300, 800] sat. */
  function EstFee(k: nat, n: nat, rate: int): (fee: int)
    ensures 300 <= fee <= 800
  {
    var fee := (k * 59 + (n + 1) * 31 + 10) * rate;
    if fee > 800 then 800 else if fee < 300 then 300 else fee
  }

  function SumValues(us: seq<Utxo>): int {
    if us == [] then 0 else SumValues(us[..|us| - 1]) + us[|us| - 1].value
  }

  function SumOutputs(os: seq<Output>): int {
    if os == [] then 0 else SumOutputs(os[..|os| - 1]) + os[|os| - 1].value
  }

  /** The referral part of one payout as the total counts it: only a truthy refBtcAmount. */
  function RefSatoshis(p: BtcPayout): int {
    if PresentReal(p.refBtcAmount) then Satoshis(p.refBtcAmount.value) else 0
  }

  /** totalSend: every main amount plus every truthy referral amount. */
  function TotalSend(ds: seq<BtcPayout>): int {
    if ds == [] then 0
    else TotalSend(ds[..|ds| - 1]) + Satoshis(ds[|ds| - 1].btcAmount) + RefSatoshis(ds[|ds| - 1])
  }

  /** A referral output is added only when both the address and the amount are truthy. */
  predicate PaysReferral(p: BtcPayout) {
    Present(p.refBtcAddress) && PresentReal(p.refBtcAmount)
  }

  /** The outputs of one payout, the referral output carrying the referral amount. */
  function OutputsOf(p: BtcPayout): seq<Output> {
    [Output(p.btcAddress, Satoshis(p.btcAmount))]
      + if PaysReferral(p) then [Output(p.refBtcAddress.value, Satoshis(p.refBtcAmount.value))] else []
  }

  /** The outputs of one payout as btc.service.ts writes them: the referral
      output carries the main amount instead. */
  function OutputsOfAsWritten(p: BtcPayout): seq<Output> {
    [Output(p.btcAddress, Satoshis(p.btcAmount))]
      + if PaysReferral(p) then [Output(p.refBtcAddress.value, Satoshis(p.btcAmount))] else []
  }

  function PayoutOutputs(ds: seq<BtcPayout>): seq<Output> {
    if ds == [] then [] else PayoutOutputs(ds[..|ds| - 1]) + OutputsOf(ds[|ds| - 1])
  }

  function PayoutOutputsAsWritten(ds: seq<BtcPayout>): seq<Output> {
    if ds == [] then [] else PayoutOutputsAsWritten(ds[..|ds| - 1]) + OutputsOfAsWritten(ds[|ds| - 1])
  }

  /** The change output, present only when there is change. */
  function ChangeOutput(devAddress: string, change: int): seq<Output> {
    if change > 0 then [Output(devAddress, change)] else []
  }

  /** Every payout whose referral amount is counted also has a referral address. */
  predicate ReferralsAddressed(ds: seq<BtcPayout>) {
    forall i :: 0 <= i < |ds| && PresentReal(ds[i].refBtcAmount) ==> Present(ds[i].refBtcAddress)
  }

  /** The first k UTXOs pay for the payouts and the fee estimated for them. */
  predicate Covers(utxos: seq<Utxo>, k: nat, total: int, n: nat, rate: int)
    requires k <= |utxos|
  {
    SumValues(utxos[..k]) >= total + EstFee(k, n, rate)
  }

  /** The greedy UTXO selection: take UTXOs in order until they cover the
      payouts plus the fee for that many inputs; `k` is how many were taken. */
  method SelectUtxos(utxos: seq<Utxo>, total: int, n: nat, rate: int)
    returns (k: nat, inputSum: int, fee: int)
    requires |utxos| > 0
    ensures 1 <= k <= |utxos|
    ensures inputSum == SumValues(utxos[..k]) && fee == EstFee(k, n, rate)
    ensures forall j :: 1 <= j < k ==> !Covers(utxos, j, total, n, rate)
    ensures inputSum >= total + fee <==> Covers(utxos, k, total, n, rate)
    ensures !Covers(utxos, k, total, n, rate) ==> k == |utxos|
  {
    inputSum := 0;
    fee := 0;
    k := 0;
    while k < |utxos|
      invariant 0 <= k <= |utxos|
      invariant inputSum == SumValues(utxos[..k])
      invariant k > 0 ==> fee == EstFee(k, n, rate)
      invariant forall j :: 1 <= j <= k ==> !Covers(utxos, j, total, n, rate)
    {
      assert utxos[..k + 1][..k] == utxos[..k];
      inputSum := inputSum + utxos[k].value;
      k := k + 1;
      fee := EstFee(k, n, rate);
      if inputSum >= total + fee {
        return;
      }
    }
  }

  /** The forEach that adds the payout outputs. */
  method BuildOutputs(deposits: seq<BtcPayout>) returns (outputs: seq<Output>)
    ensures outputs == PayoutOutputs(deposits)
    ensures ReferralsAddressed(deposits) ==> SumOutputs(outputs) == TotalSend(deposits)
  {
    outputs := [];
    var i := 0;
    while i < |deposits|
      invariant 0 <= i <= |deposits|
      invariant outputs == PayoutOutputs(deposits[..i])
    {
      assert deposits[..i + 1][..i] == deposits[..i];
      outputs := outputs + OutputsOf(deposits[i]);
      i := i + 1;
    }
    assert deposits[..i] == deposits;
    if ReferralsAddressed(deposits) {
      PayoutsSumToTotal(deposits);
    }
  }

  lemma {:induction false} SumOutputsAppend(a: seq<Output>, b: seq<Output>)
    ensures SumOutputs(a + b) == SumOutputs(a) + SumOutputs(b)
    decreases |b|
  {
    if b == [] {
      assert a + b == a;
    } else {
      SumOutputsAppend(a, b[..|b| - 1]);
      assert (a + b)[..|a + b| - 1] == a + b[..|b| - 1];
      assert (a + b)[|a + b| - 1] == b[|b| - 1];
    }
  }

  /** When every counted referral amount has an address, the payout outputs
      add up to exactly totalSend. */
  lemma {:induction false} PayoutsSumToTotal(ds: seq<BtcPayout>)
    requires ReferralsAddressed(ds)
    ensures SumOutputs(PayoutOutputs(ds)) == TotalSend(ds)
  {
    if ds != [] {
      var init := ds[..|ds| - 1];
      var p := ds[|ds| - 1];
      assert forall i :: 0 <= i < |init| ==> init[i] == ds[i];
      PayoutsSumToTotal(init);
      SumOutputsAppend(PayoutOutputs(init), OutputsOf(p));
      SumOutputsAppend([Output(p.btcAddress, Satoshis(p.btcAmount))],
        if PaysReferral(p) then [Output(p.refBtcAddress.value, Satoshis(p.refBtcAmount.value))] else []);
    }
  }

  /** With the outputs as written, one deposit of 0.001 BTC with a referral of
      0.0001 BTC pays 0.001 BTC to the referrer: the outputs exceed totalSend
      by 90000 sat, which the change does not account for. */
  lemma ReferralOutputAsWrittenOverpays()
    ensures var p := BtcPayout("user", 0.001, Some("referrer"), Some(0.0001));
      && TotalSend([p]) == 110000
      && SumOutputs(PayoutOutputsAsWritten([p])) == 200000
      && SumOutputs(PayoutOutputs([p])) == 110000
  {
    var p := BtcPayout("user", 0.001, Some("referrer"), Some(0.0001));
    assert Satoshis(0.001) == 100000;
    assert Satoshis(0.0001) == 10000;
    assert [p][..0] == [];
    assert PayoutOutputsAsWritten([p]) == [Output("user", 100000), Output("referrer", 100000)];
    assert PayoutOutputs([p]) == [Output("user", 100000), Output("referrer", 10000)];
    assert [Output("user", 100000), Output("referrer", 100000)][..1] == [Output("user", 100000)];
    assert [Output("user", 100000), Output("referrer", 10000)][..1] == [Output("user", 100000)];
  }

  class BtcService {
    var lastBlockHeight: int
    const devAddress: string

    constructor(devAddress: string)
      ensures lastBlockHeight == 0 && this.devAddress == devAddress
    {
      this.devAddress := devAddress;
      lastBlockHeight := 0;
    }

    /** monitorNewBlocks(): `latest` is the height of the newest block. The
        reported height never goes below the last recorded one. */
    method MonitorNewBlocks(latest: Fetch<int>) returns (r: Result<BlockPoll, BtcError>)
      ensures r.Err? <==> latest.Failed?
      ensures r.Ok? ==> (r.value.isNew <==> latest.body > lastBlockHeight)
      ensures r.Ok? ==> r.value.height >= lastBlockHeight && r.value.height >= latest.body
      ensures r.Ok? ==> r.value.height == latest.body || r.value.height == lastBlockHeight
    {
      match latest
      case Failed =>
        return Err(RequestFailed);
      case Got(height) =>
        if height > lastBlockHeight {
          return Ok(BlockPoll(true, height));
        }
        return Ok(BlockPoll(false, lastBlockHeight));
    }

    /** sendBTCBulkToUsers(paidDeposits): at most once per new block, one
        transaction paying every deposit (and referral) from the operational
        address; `transfer` is what is signed and broadcast. The recorded height
        moves only when the broadcast succeeds. */
    method SendBtcBulkToUsers(deposits: seq<BtcPayout>, replies: BtcReplies)
      returns (r: Result<string, BtcError>, transfer: Option<BtcTransfer>)
      modifies this
      ensures replies.latestHeight.Got? && (replies.latestHeight.body <= old(lastBlockHeight) || deposits == [])
        ==> r == Ok("") && transfer.None?
      ensures transfer.Some? <==>
        && replies.latestHeight.Got? && replies.latestHeight.body > old(lastBlockHeight) && deposits != []
        && replies.economyFee.Got? && replies.utxos.Got?
        && exists j :: 1 <= j <= |replies.utxos.body|
             && Covers(replies.utxos.body, j, TotalSend(deposits), |deposits|, FeeRate(replies.economyFee.body))
      ensures lastBlockHeight == if r.Ok? && transfer.Some? then replies.latestHeight.body else old(lastBlockHeight)
      ensures transfer.Some? ==>
        var utxos := replies.utxos.body;
        var rate := FeeRate(replies.economyFee.body);
        var k := |transfer.value.inputs|;
        && 1 <= k <= |utxos| && transfer.value.inputs == utxos[..k]
        && Covers(utxos, k, TotalSend(deposits), |deposits|, rate)
        && (forall j :: 1 <= j < k ==> !Covers(utxos, j, TotalSend(deposits), |deposits|, rate))
        && transfer.value.fee == EstFee(k, |deposits|, rate)
        && transfer.value.outputs == PayoutOutputs(deposits)
             + ChangeOutput(devAddress, SumValues(utxos[..k]) - TotalSend(deposits) - transfer.value.fee)
      ensures transfer.Some? && ReferralsAddressed(deposits) ==>
        SumOutputs(transfer.value.outputs) + transfer.value.fee == SumValues(transfer.value.inputs)
      ensures transfer.Some? ==>
        (r.Ok? <==> replies.broadcast.Got?) && (r.Ok? ==> r.value == replies.broadcast.body)
      ensures r == Err(NoUtxos) <==>
        && replies.latestHeight.Got? && replies.latestHeight.body > old(lastBlockHeight) && deposits != []
        && replies.economyFee.Got? && replies.utxos == Got([])
      ensures replies.latestHeight.Failed? ==> r == Err(RequestFailed) && transfer.None?
      ensures (replies.latestHeight.Got? && replies.latestHeight.body > old(lastBlockHeight) && deposits != []
               && (replies.economyFee.Failed? || replies.utxos.Failed?))
        ==> r == Err(RequestFailed) && transfer.None?
      ensures r == Err(NotEnoughUtxos) <==>
        && replies.latestHeight.Got? && replies.latestHeight.body > old(lastBlockHeight) && deposits != []
        && replies.economyFee.Got? && replies.utxos.Got? && replies.utxos.body != []
        && forall j :: 1 <= j <= |replies.utxos.body| ==>
             !Covers(replies.utxos.body, j, TotalSend(deposits), |deposits|, FeeRate(replies.economyFee.body))
      ensures r == Err(RequestFailed) ==> transfer.None?
    {
      var poll := MonitorNewBlocks(replies.latestHeight);
      if poll.Err? {
        return Err(RequestFailed), None;
      }
      if !poll.value.isNew || |deposits| == 0 {
        return Ok(""), None;
      }
      if replies.economyFee.Failed? {
        return Err(RequestFailed), None;
      }
      var rate := FeeRate(replies.economyFee.body);
      if replies.utxos.Failed? {
        return Err(RequestFailed), None;
      }
      var utxos := replies.utxos.body;
      if |utxos| == 0 {
        return Err(NoUtxos), None;
      }
      var total := TotalSend(deposits);
      var k, inputSum, fee := SelectUtxos(utxos, total, |deposits|, rate);
      if inputSum < total + fee {
        return Err(NotEnoughUtxos), None;
      }
      var change := inputSum - total - fee;
      var outputs := BuildOutputs(deposits);
      if ReferralsAddressed(deposits) {
        SumOutputsAppend(outputs, ChangeOutput(devAddress, change));
      }
      outputs := outputs + ChangeOutput(devAddress, change);
      transfer := Some(BtcTransfer(utxos[..k], outputs, fee));
      match replies.broadcast
      case Failed =>
        return Err(BroadcastFailed), transfer;
      case Got(txid) =>
        lastBlockHeight := poll.value.height;
        return Ok(txid), transfer;
    }

    /** isTransactionConfirmed(txid): the explorer's `confirmed` flag. */
    method IsTransactionConfirmed(txid: string, status: Fetch<bool>) returns (r: Result<bool, BtcError>)
      ensures r.Ok? <==> status.Got?
      ensures r.Ok? ==> r.value == status.body
    {
      match status
      case Failed =>
        return Err(RequestFailed);
      case Got(confirmed) =>
        return Ok(confirmed);
    }
  }

  /** A fresh service treats every positive block height as new. */
  method FirstPollSeesPositiveHeight(devAddress: string, height: int) returns (poll: Result<BlockPoll, BtcError>)
    ensures poll.Ok? && (poll.value.isNew <==> height > 0)
  {
    var service := new BtcService(devAddress);
    poll := service.MonitorNewBlocks(Got(height));
  }

  /** One input of an explorer transaction: the address of the output it spends. */
  datatype Vin = Vin(prevoutAddress: Option<string>)
  /** One output of an explorer transaction. */
  datatype Vout = Vout(address: Option<string>, value: int)
  datatype MempoolTx = MempoolTx(txid: string, vin: seq<Vin>, vout: seq<Vout>,
                                 confirmed: bool, blockTime: Option<int>)

  predicate PaysTo(tx: MempoolTx, address: string) {
    exists i :: 0 <= i < |tx.vout| && tx.vout[i].address == Some(address)
  }

  /** The index of the first output paying `address`. */
  function FirstOutputTo(vout: seq<Vout>, address: string): (r: Option<nat>)
    ensures r.None? <==> forall i :: 0 <= i < |vout| ==> vout[i].address != Some(address)
    ensures r.Some? ==>
      && r.value < |vout| && vout[r.value].address == Some(address)
      && forall j :: 0 <= j < r.value ==> vout[j].address != Some(address)
  {
    if vout == [] then None
    else if vout[0].address == Some(address) then Some(0)
    else match FirstOutputTo(vout[1..], address)
      case None => None
      case Some(k) => Some(k + 1)
  }

  /** `tx.vin[0]?.prevout?.scriptpubkey_address || "unknown"`. */
  function Sender(tx: MempoolTx): string {
    if |tx.vin| > 0 && Present(tx.vin[0].prevoutAddress) then tx.vin[0].prevoutAddress.value else "unknown"
  }

  /** The block time in milliseconds, or the current time for an unconfirmed
      transaction; `None` is the RangeError of an out-of-range Date. */
  function BlockTimestampMs(tx: MempoolTx, nowMs: int): Option<int> {
    if !PresentInt(tx.blockTime) then Some(nowMs)
    else if tx.blockTime.value * 1000 > MaxDateMs || tx.blockTime.value * 1000 < -MaxDateMs then None
    else Some(tx.blockTime.value * 1000)
  }

  /** The record of one transaction paying `address`. */
  function ToRecord(address: string, tx: MempoolTx, nowMs: int): Option<Incoming>
    requires PaysTo(tx, address)
  {
    var k := FirstOutputTo(tx.vout, address).value;
    match BlockTimestampMs(tx, nowMs)
    case None => None
    case Some(ts) => Some(Incoming(tx.txid, Sender(tx), tx.vout[k].value as real / 100000000.0, tx.confirmed, ts))
  }

  /** `txs.filter(tx => tx.vout.some(v => v.scriptpubkey_address === address))`. */
  function Matching(address: string, txs: seq<MempoolTx>): (ms: seq<MempoolTx>)
    ensures forall i :: 0 <= i < |ms| ==> PaysTo(ms[i], address)
    ensures forall t :: t in txs && PaysTo(t, address) ==> t in ms
    ensures forall t :: t in ms ==> t in txs
  {
    if txs == [] then []
    else
      var rest := Matching(address, txs[1..]);
      assert forall t :: t in txs[1..] ==> t in txs;
      assert forall t :: t in txs ==> t == txs[0] || t in txs[1..];
      if PaysTo(txs[0], address) then [txs[0]] + rest else rest
  }

  /** `Matching` is the order-preserving filter: it keeps a lone transaction
      exactly when it pays the address, and splits over concatenation. */
  lemma {:induction false} MatchingAppend(address: string, xs: seq<MempoolTx>, ys: seq<MempoolTx>)
    ensures Matching(address, xs + ys) == Matching(address, xs) + Matching(address, ys)
    ensures |xs| == 1 ==> Matching(address, xs) == if PaysTo(xs[0], address) then xs else []
    decreases |xs|
  {
    if xs == [] {
      assert xs + ys == ys;
    } else {
      assert (xs + ys)[1..] == xs[1..] + ys;
      MatchingAppend(address, xs[1..], ys);
      if |xs| == 1 {
        assert xs[1..] == [];
      }
    }
  }

  /** The `map` over the matching transactions; `None` as soon as one throws. */
  function RecordsOf(address: string, ms: seq<MempoolTx>, nowMs: int): (r: Option<seq<Incoming>>)
    requires forall i :: 0 <= i < |ms| ==> PaysTo(ms[i], address)
    ensures r.None? <==> exists i :: 0 <= i < |ms| && ToRecord(address, ms[i], nowMs).None?
    ensures r.Some? ==>
      && |r.value| == |ms|
      && forall k :: 0 <= k < |ms| ==> ToRecord(address, ms[k], nowMs) == Some(r.value[k])
  {
    if ms == [] then Some([])
    else
      var rest := RecordsOf(address, ms[1..], nowMs);
      assert forall i :: 1 <= i < |ms| ==> ms[i] == ms[1..][i - 1];
      match ToRecord(address, ms[0], nowMs)
      case None => None
      case Some(record) =>
        match rest
        case None => None
        case Some(records) => Some([record] + records)
  }

  /** getIncomingTransactions(address): one record per transaction with an
      output to `address`, in the explorer's order; `None` when a block time
      makes the Date throw. */
  function IncomingOf(address: string, txs: seq<MempoolTx>, nowMs: int): (r: Option<seq<Incoming>>)
    ensures r.None? <==> exists t :: t in txs && PaysTo(t, address) && ToRecord(address, t, nowMs).None?
    ensures r.Some? ==>
      && |r.value| == |Matching(address, txs)|
      && forall k :: 0 <= k < |r.value| ==> ToRecord(address, Matching(address, txs)[k], nowMs) == Some(r.value[k])
    ensures r.Some? ==> forall t :: t in txs && PaysTo(t, address) ==>
      ToRecord(address, t, nowMs).Some? && ToRecord(address, t, nowMs).value in r.value
  {
    var ms := Matching(address, txs);
    var r := RecordsOf(address, ms, nowMs);
    assert forall t :: t in ms <==> exists i :: 0 <= i < |ms| && ms[i] == t;
    r
  }

  /** Records for two pages of history are the records for the first page
      followed by those for the second. */
  lemma IncomingOfAppend(address: string, xs: seq<MempoolTx>, ys: seq<MempoolTx>, nowMs: int)
    requires IncomingOf(address, xs + ys, nowMs).Some?
    ensures IncomingOf(address, xs, nowMs).Some? && IncomingOf(address, ys, nowMs).Some?
    ensures IncomingOf(address, xs + ys, nowMs).value
      == IncomingOf(address, xs, nowMs).value + IncomingOf(address, ys, nowMs).value
  {
    MatchingAppend(address, xs, ys);
    assert forall t :: t in xs ==> t in xs + ys;
    assert forall t :: t in ys ==> t in xs + ys;
    var all := IncomingOf(address, xs + ys, nowMs).value;
    var a := IncomingOf(address, xs, nowMs).value;
    var b := IncomingOf(address, ys, nowMs).value;
    var ma := Matching(address, xs);
    var mb := Matching(address, ys);
    forall k | 0 <= k < |all|
      ensures all[k] == (a + b)[k]
    {
      if k < |ma| {
        assert (ma + mb)[k] == ma[k];
      } else {
        assert (ma + mb)[k] == mb[k - |ma|];
      }
    }
  }

  /** A record reports the first output paying the address, in BTC, the
      transaction's own id and confirmation flag, and the first input's sender. */
  lemma RecordDescribesTransaction(address: string, tx: MempoolTx, nowMs: int)
    requires PaysTo(tx, address)
    requires ToRecord(address, tx, nowMs).Some?
    ensures var rec := ToRecord(address, tx, nowMs).value;
      && rec.txid == tx.txid && rec.confirmed == tx.confirmed
      && (exists k :: 0 <= k < |tx.vout| && tx.vout[k].address == Some(address)
            && rec.amount == tx.vout[k].value as real / 100000000.0
            && forall j :: 0 <= j < k ==> tx.vout[j].address != Some(address))
      && (rec.from == "unknown" || (|tx.vin| > 0 && tx.vin[0].prevoutAddress == Some(rec.from)))
  {
    var k := FirstOutputTo(tx.vout, address).value;
    assert tx.vout[k].address == Some(address);
  }
}
