/** hedera.helper.ts: rewriting an SDK transaction id `account@seconds.nanos`
    into the mirror node's `account-seconds-nanos`. */
module HederaHelper {
  import opened Wrappers
  import opened Strings

  /** `rest` is undefined when the id has no '@', and `rest.split` throws. */
  datatype MirrorIdError = NoAtSign

  /** toMirrorId(txId): only the first two '@'-pieces and the first two
      '.'-pieces of the second matter; a missing nanos piece prints as "undefined". */
  function ToMirrorId(txId: string): (r: Result<string, MirrorIdError>)
    ensures r.Err? <==> '@' !in txId
  {
    var parts := Split(txId, '@');
    if |parts| < 2 then
      JoinSplit(txId, '@');
      Err(NoAtSign)
    else
      var account := parts[0];
      var rest := parts[1];
      var pieces := Split(rest, '.');
      var seconds := pieces[0];
      var nanos := if |pieces| >= 2 then pieces[1] else "undefined";
      Ok(account + "-" + seconds + "-" + nanos)
  }

  lemma NotInConcat(a: string, b: string, c: char)
    requires c !in a && c !in b
    ensures c !in a + b
  {
    assert forall i :: 0 <= i < |a + b| ==> (a + b)[i] == if i < |a| then a[i] else b[i - |a|];
  }

  /** `A@S.N` maps to `A-S-N`; dots inside the account part survive because the
      split on '@' comes first. */
  lemma MirrorIdOfWellFormed(account: string, seconds: string, nanos: string)
    requires '@' !in account && '@' !in seconds && '@' !in nanos
    requires '.' !in seconds && '.' !in nanos
    ensures ToMirrorId(account + "@" + seconds + "." + nanos) == Ok(account + "-" + seconds + "-" + nanos)
  {
    var rest := seconds + "." + nanos;
    NotInConcat(seconds, ".", '@');
    NotInConcat(seconds + ".", nanos, '@');
    SplitPrefix(account, rest, '@');
    assert account + "@" + seconds + "." + nanos == account + "@" + rest;
    SplitPrefix(seconds, nanos, '.');
  }

  /** Pieces after the nanos part are discarded. */
  lemma MirrorIdIgnoresTail(account: string, seconds: string, nanos: string, tail: string)
    requires '@' !in account && '@' !in seconds && '@' !in nanos && '@' !in tail
    requires '.' !in seconds && '.' !in nanos
    ensures ToMirrorId(account + "@" + seconds + "." + nanos + "." + tail)
         == Ok(account + "-" + seconds + "-" + nanos)
  {
    var t := nanos + "." + tail;
    NotInConcat(nanos, ".", '@');
    NotInConcat(nanos + ".", tail, '@');
    var rest := seconds + "." + t;
    NotInConcat(seconds, ".", '@');
    NotInConcat(seconds + ".", t, '@');
    SplitPrefix(account, rest, '@');
    assert account + "@" + seconds + "." + nanos + "." + tail == account + "@" + rest;
    SplitPrefix(seconds, t, '.');
    SplitPrefix(nanos, tail, '.');
  }

  /** An id without a '.' after the '@' gets the literal nanos part "undefined". */
  lemma MirrorIdWithoutNanos(account: string, seconds: string)
    requires '@' !in account && '@' !in seconds && '.' !in seconds
    ensures ToMirrorId(account + "@" + seconds) == Ok(account + "-" + seconds + "-undefined")
  {
    SplitPrefix(account, seconds, '@');
    assert account + "-" + seconds + "-" + "undefined" == account + "-" + seconds + "-undefined";
  }
}
