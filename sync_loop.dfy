/** The long-poll producer (`Session.producer`): each sync check yields a
    result code and a selector; the loop either keeps polling, fetches the new
    batch and keeps polling, or signals termination once and stops. */
module SyncLoop {
  import opened GoStrings

  /** Result code of a check when the session was logged out elsewhere. */
  const RetLoggedOut: int := 1101

  /** Result code of a check when the backend blocks the client. */
  const RetBlocked: int := 1205

  /** Selector of a successful check that announces new messages. */
  const SelNewMessage: int := 2

  /** The outcome of one `SyncCheck` call. */
  datatype CheckResult =
    | CheckFailed                     // transport error on the check itself
    | Checked(ret: int, sel: int)

  /** The errors the producer reports on its termination channel. */
  datatype ProducerError =
    | SessionDown(sel: int)           // "session down, sel %d"
    | ApiBlocked                      // "api blocked, ret:1205"
    | UnhandledRet(ret: int)          // "unhandled exception ret %d"

  /** What one iteration of the loop does after its check. A termination
      carries the value sent on the channel: `None` for Go's nil. */
  datatype Step =
    | Continue
    | FetchThenContinue
    | Terminate(signal: Option<ProducerError>)

  /** The decision of one loop iteration. */
  function ProducerStep(c: CheckResult): (s: Step)
    ensures s.Terminate? <==> c.Checked? && !(c.ret == 0 && c.sel in {0, SelNewMessage, 7})
    ensures s == FetchThenContinue <==> c == Checked(0, SelNewMessage)
    ensures s == Terminate(None) <==> c.Checked? && c.ret == RetLoggedOut
    ensures s == Terminate(Some(ApiBlocked)) <==> c.Checked? && c.ret == RetBlocked
    ensures s.Terminate? && s.signal.Some? && s.signal.value.SessionDown? ==>
              c == Checked(0, s.signal.value.sel)
    ensures s.Terminate? && s.signal.Some? && s.signal.value.UnhandledRet? ==>
              c.Checked? && c.ret == s.signal.value.ret && c.ret !in {0, RetLoggedOut, RetBlocked}
  {
    match c
    case CheckFailed => Continue
    case Checked(ret, sel) =>
      if ret == 0 then
        if sel == SelNewMessage then FetchThenContinue
        else if sel != 0 && sel != 7 then Terminate(Some(SessionDown(sel)))
        else Continue
      else if ret == RetLoggedOut then Terminate(None)
      else if ret == RetBlocked then Terminate(Some(ApiBlocked))
      else Terminate(Some(UnhandledRet(ret)))
  }

  /** The producer loop run over a finite sequence of check outcomes. It
      returns the values sent on the termination channel, the indices of the
      checks after which a batch was fetched, and how many checks it used.
      The fetch's own outcome is only logged, so it is not an input. Input
      that runs out before a terminal check stands for a loop still running. */
  method Producer(checks: seq<CheckResult>)
    returns (signals: seq<Option<ProducerError>>, fetches: seq<nat>, used: nat)
    ensures |signals| <= 1 && used <= |checks|
    ensures |signals| == 0 ==> used == |checks|
    ensures |signals| == 1 ==> 0 < used && ProducerStep(checks[used - 1]) == Terminate(signals[0])
    ensures forall j :: 0 <= j < used - |signals| ==> !ProducerStep(checks[j]).Terminate?
    ensures forall j :: j in fetches <==> 0 <= j < used && ProducerStep(checks[j]) == FetchThenContinue
    ensures forall a, b :: 0 <= a < b < |fetches| ==> fetches[a] < fetches[b]
  {
    signals, fetches, used := [], [], 0;
    while used < |checks|
      invariant used <= |checks|
      invariant forall j :: 0 <= j < used ==> !ProducerStep(checks[j]).Terminate?
      invariant forall j :: j in fetches <==> 0 <= j < used && ProducerStep(checks[j]) == FetchThenContinue
      invariant forall a :: 0 <= a < |fetches| ==> fetches[a] < used
      invariant forall a, b :: 0 <= a < b < |fetches| ==> fetches[a] < fetches[b]
    {
      match ProducerStep(checks[used])
      case Continue =>
        used := used + 1;
      case FetchThenContinue =>
        fetches := fetches + [used];
        used := used + 1;
      case Terminate(signal) =>
        signals := [signal];
        used := used + 1;
        return;
    }
  }
}
