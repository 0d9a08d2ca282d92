/** validateAddress.helper.ts: the string predicates for Bitcoin bech32
    addresses and Hedera EVM addresses, and the account-id to EVM-address
    conversion whose mirror-node lookup is an oracle parameter. */
module ValidateAddress {
  import opened Wrappers
  import opened Strings

  /** The lowercase bech32 data alphabet. */
  const Bech32Chars: string := "qpzry9x8gf2tvdw0s3jn54khce6mua7l"

  /** `s.slice(from)` for from >= 0. */
  function SliceFrom(s: string, from: nat): string {
    if from <= |s| then s[from..] else ""
  }

  /** `s.slice(0, n)` for n >= 0. */
  function SliceTo(s: string, n: nat): string {
    if n <= |s| then s[..n] else s
  }

  /** The regular expression `^[chars]+$`. */
  predicate OneOrMoreOf(s: string, chars: string) {
    |s| > 0 && forall i :: 0 <= i < |s| ==> s[i] in chars
  }

  /** validateBtcAddress(addr). */
  function ValidateBtcAddress(addr: string): (ok: bool)
    ensures addr == "" ==> !ok
    ensures ok <==>
      && 42 <= |addr| <= 62
      && (addr[..4] == "bc1q" || addr[..4] == "bc1p")
      && forall i :: 3 <= i < |addr| ==> addr[i] in Bech32Chars
  {
    if addr == "" then false
    else
      var prefix := SliceTo(addr, 4);
      && prefix in ["bc1q", "bc1p"]
      && |addr| >= 42
      && |addr| <= 62
      && OneOrMoreOf(SliceFrom(addr, 3), Bech32Chars)
  }

  predicate IsHexDigit(c: char) {
    ('0' <= c <= '9') || ('a' <= c <= 'f') || ('A' <= c <= 'F')
  }

  /** The regular expression `^0x[a-fA-F0-9]+$`. */
  predicate HexAfter0x(s: string) {
    |s| > 2 && s[0] == '0' && s[1] == 'x' && forall i :: 2 <= i < |s| ==> IsHexDigit(s[i])
  }

  /** validateHbarEvm(addr). */
  function ValidateHbarEvm(addr: string): (ok: bool)
    ensures ok <==>
      |addr| == 42 && addr[..2] == "0x" && forall i :: 2 <= i < 42 ==> IsHexDigit(addr[i])
  {
    if addr == "" then false
    else if SliceTo(addr, 2) != "0x" then false
    else if !HexAfter0x(addr) then false
    else if |addr| != 42 then false
    else true
  }

  /** The regular expression `^0\.0\.\d+$`: a Hedera account id in shard 0, realm 0. */
  predicate IsAccountIdForm(s: string) {
    |s| > 4 && s[..4] == "0.0." && forall i :: 4 <= i < |s| ==> IsDigit(s[i])
  }

  /** The mirror node's answer to `/accounts/<num>`: the fetch threw, answered
      with a non-OK status, or returned a body whose `evm_address` may be null. */
  datatype MirrorReply = FetchThrew | NotOk | Body(evmAddress: Option<string>)

  datatype LookupError = LookupFailed

  /** toEvmAddressIfNeeded(addr). */
  function ToEvmAddressIfNeeded(addr: string, reply: MirrorReply): (r: Result<string, LookupError>)
    ensures r.Err? ==> IsAccountIdForm(addr) && reply == FetchThrew
    ensures r.Ok? && r.value != addr ==>
      IsAccountIdForm(addr) && reply == Body(Some(r.value)) && r.value != ""
    ensures IsAccountIdForm(addr) ==> (r.Err? <==> reply == FetchThrew)
    ensures IsAccountIdForm(addr) && reply.Body? && reply.evmAddress.Some? && reply.evmAddress.value != "" ==>
      r == Ok(reply.evmAddress.value)
    ensures IsAccountIdForm(addr) && (reply == NotOk || reply == Body(None) || reply == Body(Some(""))) ==>
      r == Ok(addr)
  {
    if addr == "" then Ok(addr)
    else if ValidateHbarEvm(addr) then Ok(addr)
    else if !IsAccountIdForm(addr) then Ok(addr)
    else match reply
      case FetchThrew => Err(LookupFailed)
      case NotOk => Ok(addr)
      case Body(evm) => if evm.Some? && evm.value != "" then Ok(evm.value) else Ok(addr)
  }

  /** An address that is already a valid EVM address, or is not of the
      `0.0.<digits>` form, comes back unchanged whatever the mirror node says;
      so the conversion is idempotent on valid EVM addresses. */
  lemma ToEvmUnchanged(addr: string, reply: MirrorReply)
    requires addr == "" || ValidateHbarEvm(addr) || !IsAccountIdForm(addr)
    ensures ToEvmAddressIfNeeded(addr, reply) == Ok(addr)
  {
  }
}
