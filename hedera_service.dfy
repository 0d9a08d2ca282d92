/** hedera.service.ts: the Hedera adapter. Mirror-node replies and the SDK's
    execute() are oracle parameters; `Failed` / `None` stand for a call that threw. */
module HederaService {
  import opened Wrappers
  import opened Strings
  import opened Records
  import opened HederaHelper

  /** Every method wraps what it catches into an HttpResponseError with its own message. */
  datatype HederaError =
    | ConsensusFetchFailed
    | BulkTransferFailed
    | ConfirmationCheckFailed
    | IncomingFetchFailed

  /** The pair `[isNew, consensus]` that monitorNewConsensus returns. */
  datatype Poll = Poll(isNew: bool, consensus: Option<string>)

  /** One entry of the bulk payout: an account and an HBAR amount. */
  datatype HbarPayout = HbarPayout(accountId: string, hbarAmount: real)

  /** One addHbarTransfer call, in tinybars. */
  datatype HbarTransfer = HbarTransfer(account: string, tinybars: real)

  /** An HBAR amount in tinybars (1 HBAR = 10^8 tinybars). */
  function Tinybars(hbar: real): real {
    hbar * 100000000.0
  }

  /** JavaScript's Math.round: halves go up. */
  function JsRound(x: real): int {
    (x + 0.5).Floor
  }

  /** `paidDeposits.reduce((s, p) => s + p.hbarAmount, 0)`, in exact arithmetic. */
  function Total(ds: seq<HbarPayout>): real {
    if ds == [] then 0.0 else Total(ds[..|ds| - 1]) + ds[|ds| - 1].hbarAmount
  }

  /** The net tinybar amount of a transfer list. */
  function SumTinybars(ts: seq<HbarTransfer>): real {
    if ts == [] then 0.0 else SumTinybars(ts[..|ts| - 1]) + ts[|ts| - 1].tinybars
  }

  /** The credit of one payout: Math.round(hbarAmount * 1e8) tinybars. */
  function Credit(p: HbarPayout): HbarTransfer {
    HbarTransfer(p.accountId, JsRound(Tinybars(p.hbarAmount)) as real)
  }

  /** An amount that is a whole number of tinybars, so Math.round changes nothing. */
  predicate WholeTinybars(hbar: real) {
    Tinybars(hbar).Floor as real == Tinybars(hbar)
  }

  predicate AllWholeTinybars(ds: seq<HbarPayout>) {
    forall i :: 0 <= i < |ds| ==> WholeTinybars(ds[i].hbarAmount)
  }

  /** Appending the credit of payout i keeps the running sum in step with the total. */
  lemma CreditStep(ds: seq<HbarPayout>, i: nat, ts: seq<HbarTransfer>, total: real)
    requires i < |ds| && AllWholeTinybars(ds)
    requires SumTinybars(ts) == Tinybars(Total(ds[..i])) - Tinybars(total)
    ensures SumTinybars(ts + [Credit(ds[i])]) == Tinybars(Total(ds[..i + 1])) - Tinybars(total)
  {
    var x := Tinybars(ds[i].hbarAmount);
    assert WholeTinybars(ds[i].hbarAmount);
    var n := x.Floor;
    assert n as real == x;
    assert (x + 0.5).Floor == n;
    assert Credit(ds[i]).tinybars == x;
    assert ds[..i + 1][..i] == ds[..i];
    assert Total(ds[..i + 1]) == Total(ds[..i]) + ds[i].hbarAmount;
    assert Tinybars(Total(ds[..i + 1])) == Tinybars(Total(ds[..i])) + x;
    var ts' := ts + [Credit(ds[i])];
    assert ts'[..|ts|] == ts;
    assert SumTinybars(ts') == SumTinybars(ts) + x;
  }

  /** One mirror-node transfer entry, `amount` in tinybars. */
  datatype MirrorTransfer = MirrorTransfer(account: string, amount: int)

  /** One mirror-node transaction; `transfers ?? []` is applied already. */
  datatype MirrorTx = MirrorTx(
    transactionId: Option<string>,
    consensusTimestamp: Option<string>,
    transfers: seq<MirrorTransfer>,
    result: Option<string>)

  /** The record timestamp of a transaction, in milliseconds: the seconds part of
      the consensus timestamp times 1000, or the current time when there is none.
      `None` is the RangeError of an invalid Date, which aborts the whole call. */
  function TimestampMs(tx: MirrorTx, nowMs: int): Option<int> {
    if !Present(tx.consensusTimestamp) then Some(nowMs)
    else match ParseDecimal(Split(tx.consensusTimestamp.value, '.')[0])
      case None => None
      case Some(seconds) => if seconds * 1000 > MaxDateMs then None else Some(seconds * 1000)
  }

  /** The entries crediting `accountId`, in order. */
  function CreditsOf(accountId: string, ts: seq<MirrorTransfer>): (cs: seq<MirrorTransfer>)
    ensures forall i :: 0 <= i < |cs| ==> cs[i].account == accountId
    ensures forall t :: t in ts && t.account == accountId ==> t in cs
    ensures forall c :: c in cs ==> c in ts
  {
    if ts == [] then []
    else
      var rest := CreditsOf(accountId, ts[..|ts| - 1]);
      assert forall t :: t in ts[..|ts| - 1] ==> t in ts;
      assert forall t :: t in ts ==> t in ts[..|ts| - 1] || t == ts[|ts| - 1];
      if ts[|ts| - 1].account == accountId then rest + [ts[|ts| - 1]] else rest
  }

  /** `CreditsOf` is the order-preserving filter: it keeps a lone entry exactly
      when it credits the account, and splits over concatenation. */
  lemma {:induction false} CreditsOfAppend(accountId: string, xs: seq<MirrorTransfer>, ys: seq<MirrorTransfer>)
    ensures CreditsOf(accountId, xs + ys) == CreditsOf(accountId, xs) + CreditsOf(accountId, ys)
    ensures |ys| == 1 ==> CreditsOf(accountId, ys) == if ys[0].account == accountId then ys else []
    decreases |ys|
  {
    if ys == [] {
      assert xs + ys == xs;
    } else {
      assert (xs + ys)[..|xs + ys| - 1] == xs + ys[..|ys| - 1];
      CreditsOfAppend(accountId, xs, ys[..|ys| - 1]);
      if |ys| == 1 {
        assert ys[..0] == [];
      }
    }
  }

  /** The `find` predicate: same amount, another account. */
  predicate Counterpart(accountId: string, t: MirrorTransfer, amount: int) {
    t.amount == amount && t.account != accountId
  }

  /** The index of the first counterpart entry, if any. */
  function FirstCounterpart(accountId: string, ts: seq<MirrorTransfer>, amount: int): (r: Option<nat>)
    ensures r.None? <==> forall i :: 0 <= i < |ts| ==> !Counterpart(accountId, ts[i], amount)
    ensures r.Some? ==>
      && r.value < |ts| && Counterpart(accountId, ts[r.value], amount)
      && forall j :: 0 <= j < r.value ==> !Counterpart(accountId, ts[j], amount)
  {
    if ts == [] then None
    else if Counterpart(accountId, ts[0], amount) then Some(0)
    else match FirstCounterpart(accountId, ts[1..], amount)
      case None => None
      case Some(k) => Some(k + 1)
  }

  /** `fromEntry?.account ?? "unknown"`. */
  function FromOf(accountId: string, ts: seq<MirrorTransfer>, amount: int): string {
    match FirstCounterpart(accountId, ts, amount)
    case None => "unknown"
    case Some(k) => ts[k].account
  }

  /** The record pushed for one credit entry `c` of `tx`. */
  function RecordOf(accountId: string, tx: MirrorTx, tsMs: int, c: MirrorTransfer): Incoming {
    Incoming(tx.transactionId.GetOr(""), FromOf(accountId, tx.transfers, c.amount),
             c.amount as real / 100000000.0, tx.result == Some("SUCCESS"), tsMs)
  }

  /** The records of one transaction, one per credit entry. */
  function RecordsOf(accountId: string, tx: MirrorTx, tsMs: int): seq<Incoming> {
    var cs := CreditsOf(accountId, tx.transfers);
    seq(|cs|, i requires 0 <= i < |cs| => RecordOf(accountId, tx, tsMs, cs[i]))
  }

  /** What getIncomingTransactions returns for the listed items; `None` when a
      timestamp is invalid. */
  function IncomingOf(accountId: string, items: seq<MirrorTx>, nowMs: int): Option<seq<Incoming>> {
    if items == [] then Some([])
    else match IncomingOf(accountId, items[..|items| - 1], nowMs)
      case None => None
      case Some(prev) =>
        match TimestampMs(items[|items| - 1], nowMs)
        case None => None
        case Some(tsMs) => Some(prev + RecordsOf(accountId, items[|items| - 1], tsMs))
  }

  /** The number of entries crediting `accountId` over all items. */
  function CreditCount(accountId: string, items: seq<MirrorTx>): nat {
    if items == [] then 0
    else CreditCount(accountId, items[..|items| - 1]) + |CreditsOf(accountId, items[|items| - 1].transfers)|
  }

  class HederaService {
    /** Never assigned after construction. */
    var lastConsensus: Option<string>
    const operatorId: string

    constructor(operatorId: string)
      ensures lastConsensus == None && this.operatorId == operatorId
    {
      this.operatorId := operatorId;
      lastConsensus := None;
    }

    /** monitorNewConsensus(): `latest` is the consensus timestamp of the newest
        transaction, `None` when the reply has none. */
    method MonitorNewConsensus(latest: Fetch<Option<string>>) returns (r: Result<Poll, HederaError>)
      ensures r.Err? <==> latest.Failed?
      ensures r.Ok? ==>
        (r.value.isNew <==>
          Present(latest.body) && (lastConsensus.None? || Less(lastConsensus.value, latest.body.value)))
      ensures r.Ok? ==> r.value.consensus == if r.value.isNew then latest.body else lastConsensus
    {
      match latest
      case Failed =>
        return Err(ConsensusFetchFailed);
      case Got(consensus) =>
        if !Present(consensus) {
          return Ok(Poll(false, lastConsensus));
        }
        if lastConsensus.None? || Less(lastConsensus.value, consensus.value) {
          return Ok(Poll(true, consensus));
        }
        return Ok(Poll(false, lastConsensus));
    }

    /** sendHBulkToUsers(paidDeposits): one operator debit of the total, then one
        credit per payout; `transfers` is the list handed to the SDK and
        `executeReply` the transaction id execute() returned. */
    method SendHBulkToUsers(deposits: seq<HbarPayout>, executeReply: Option<string>)
      returns (r: Result<string, HederaError>, transfers: seq<HbarTransfer>)
      ensures deposits == [] ==> r == Ok("") && transfers == []
      ensures deposits != [] ==> (r.Ok? <==> executeReply.Some?) && (r.Ok? ==> r.value == executeReply.value)
      ensures deposits != [] ==>
        && |transfers| == |deposits| + 1
        && transfers[0] == HbarTransfer(operatorId, -Tinybars(Total(deposits)))
        && forall i :: 0 <= i < |deposits| ==> transfers[i + 1] == Credit(deposits[i])
      ensures AllWholeTinybars(deposits) ==> SumTinybars(transfers) == 0.0
    {
      if |deposits| == 0 {
        return Ok(""), [];
      }
      var total := Total(deposits);
      transfers := [HbarTransfer(operatorId, -Tinybars(total))];
      var i := 0;
      while i < |deposits|
        invariant 0 <= i <= |deposits|
        invariant |transfers| == i + 1
        invariant transfers[0] == HbarTransfer(operatorId, -Tinybars(total))
        invariant forall j :: 0 <= j < i ==> transfers[j + 1] == Credit(deposits[j])
        invariant AllWholeTinybars(deposits) ==>
          SumTinybars(transfers) == Tinybars(Total(deposits[..i])) - Tinybars(total)
      {
        var credit := Credit(deposits[i]);
        if AllWholeTinybars(deposits) {
          CreditStep(deposits, i, transfers, total);
        }
        transfers := transfers + [credit];
        i := i + 1;
      }
      assert deposits[..i] == deposits;
      match executeReply
      case None =>
        return Err(BulkTransferFailed), transfers;
      case Some(txid) =>
        return Ok(txid), transfers;
    }

    /** isTransactionConfirmed(txid): `reply` is the mirror node's `result`
        field for the converted id. An id without '@' makes toMirrorId throw,
        which surfaces as the same error as a failed request. */
    method IsTransactionConfirmed(txid: string, reply: Fetch<Option<string>>) returns (r: Result<bool, HederaError>)
      ensures r.Ok? <==> '@' in txid && reply.Got?
      ensures r.Ok? ==> (r.value <==> reply.body == Some("SUCCESS"))
    {
      var mirrorId := ToMirrorId(txid);
      if mirrorId.Err? {
        return Err(ConfirmationCheckFailed);
      }
      match reply
      case Failed =>
        return Err(ConfirmationCheckFailed);
      case Got(result) =>
        return Ok(result == Some("SUCCESS"));
    }

    /** getIncomingTransactions(accountId): one record per transfer entry
        crediting `accountId`, transaction by transaction. */
    method GetIncomingTransactions(accountId: string, items: Fetch<seq<MirrorTx>>, nowMs: int)
      returns (r: Result<seq<Incoming>, HederaError>)
      ensures items.Failed? ==> r == Err(IncomingFetchFailed)
      ensures items.Got? ==>
        match IncomingOf(accountId, items.body, nowMs)
        case None => r == Err(IncomingFetchFailed)
        case Some(records) => r == Ok(records)
    {
      if items.Failed? {
        return Err(IncomingFetchFailed);
      }
      var txs := items.body;
      var results: seq<Incoming> := [];
      var i := 0;
      while i < |txs|
        invariant 0 <= i <= |txs|
        invariant IncomingOf(accountId, txs[..i], nowMs) == Some(results)
      {
        var tx := txs[i];
        assert txs[..i + 1][..i] == txs[..i];
        var timestamp := TimestampMs(tx, nowMs);
        if timestamp.None? {
          IncomingStopsAtBadTimestamp(accountId, txs, nowMs, i);
          return Err(IncomingFetchFailed);
        }
        var credits := CreditsOf(accountId, tx.transfers);
        var k := 0;
        ghost var before := results;
        while k < |credits|
          invariant 0 <= k <= |credits|
          invariant results == before + RecordsOf(accountId, tx, timestamp.value)[..k]
        {
          var c := credits[k];
          var record := Incoming(tx.transactionId.GetOr(""), FromOf(accountId, tx.transfers, c.amount),
                                 c.amount as real / 100000000.0, tx.result == Some("SUCCESS"),
                                 timestamp.value);
          assert RecordsOf(accountId, tx, timestamp.value)[..k + 1]
              == RecordsOf(accountId, tx, timestamp.value)[..k] + [record];
          results := results + [record];
          k := k + 1;
        }
        assert RecordsOf(accountId, tx, timestamp.value)[..k] == RecordsOf(accountId, tx, timestamp.value);
        i := i + 1;
      }
      assert txs[..i] == txs;
      return Ok(results);
    }
  }

  /** A fresh service has no last consensus, so any non-empty timestamp is new. */
  method FirstPollIsNew(operatorId: string, latest: Option<string>) returns (poll: Result<Poll, HederaError>)
    ensures poll.Ok?
    ensures poll.value.isNew <==> Present(latest)
    ensures poll.value.consensus == if Present(latest) then latest else None
  {
    var service := new HederaService(operatorId);
    poll := service.MonitorNewConsensus(Got(latest));
  }

  /** Once a timestamp is invalid the whole listing fails. */
  lemma {:induction false} IncomingStopsAtBadTimestamp(accountId: string, items: seq<MirrorTx>, nowMs: int, i: nat)
    requires i < |items|
    requires TimestampMs(items[i], nowMs).None?
    ensures IncomingOf(accountId, items[..i + 1], nowMs).None?
    ensures IncomingOf(accountId, items, nowMs).None?
    decreases |items|
  {
    assert items[..i + 1][..i] == items[..i];
    if i + 1 < |items| {
      IncomingStopsAtBadTimestamp(accountId, items[..|items| - 1], nowMs, i);
      assert items[..|items| - 1][..i + 1] == items[..i + 1];
    } else {
      assert items[..i + 1] == items;
    }
  }

  /** The listing fails exactly when some transaction's timestamp is invalid;
      otherwise it has one record per credit entry. */
  lemma {:induction false} IncomingFailsIff(accountId: string, items: seq<MirrorTx>, nowMs: int)
    ensures IncomingOf(accountId, items, nowMs).None?
        <==> exists i :: 0 <= i < |items| && TimestampMs(items[i], nowMs).None?
    ensures IncomingOf(accountId, items, nowMs).Some? ==>
      |IncomingOf(accountId, items, nowMs).value| == CreditCount(accountId, items)
  {
    if items != [] {
      var init := items[..|items| - 1];
      IncomingFailsIff(accountId, init, nowMs);
      assert forall i :: 0 <= i < |init| ==> init[i] == items[i];
      if exists i :: 0 <= i < |items| && TimestampMs(items[i], nowMs).None? {
        var i :| 0 <= i < |items| && TimestampMs(items[i], nowMs).None?;
        IncomingStopsAtBadTimestamp(accountId, items, nowMs, i);
      }
    }
  }

  /** Every record comes from an entry crediting `accountId`: its amount is that
      entry's tinybars in HBAR, and its sender is the first other account that
      moved the same amount, or "unknown". */
  lemma {:induction false} IncomingRecordsAreCredits(accountId: string, items: seq<MirrorTx>, nowMs: int, k: nat)
    requires IncomingOf(accountId, items, nowMs).Some?
    requires k < |IncomingOf(accountId, items, nowMs).value|
    ensures exists i, c ::
      && 0 <= i < |items| && c in items[i].transfers && c.account == accountId
      && TimestampMs(items[i], nowMs).Some?
      && IncomingOf(accountId, items, nowMs).value[k] == RecordOf(accountId, items[i], TimestampMs(items[i], nowMs).value, c)
  {
    var init := items[..|items| - 1];
    var last := items[|items| - 1];
    var prev := IncomingOf(accountId, init, nowMs).value;
    if k < |prev| {
      IncomingRecordsAreCredits(accountId, init, nowMs, k);
      var i, c :| 0 <= i < |init| && c in init[i].transfers && c.account == accountId
        && TimestampMs(init[i], nowMs).Some?
        && prev[k] == RecordOf(accountId, init[i], TimestampMs(init[i], nowMs).value, c);
      assert init[i] == items[i];
    } else {
      var cs := CreditsOf(accountId, last.transfers);
      var c := cs[k - |prev|];
      assert c in cs;
      assert items[|items| - 1] == last;
    }
  }

  /** The reported sender is never the receiving account itself, unless it is
      the placeholder "unknown". */
  lemma SenderIsAnotherAccount(accountId: string, ts: seq<MirrorTransfer>, amount: int)
    ensures FromOf(accountId, ts, amount) == "unknown" || FromOf(accountId, ts, amount) != accountId
    ensures FromOf(accountId, ts, amount) == "unknown"
        || exists t :: t in ts && t.amount == amount && t.account == FromOf(accountId, ts, amount)
  {
    var r := FirstCounterpart(accountId, ts, amount);
    if r.Some? {
      assert ts[r.value] in ts;
    }
  }
}
