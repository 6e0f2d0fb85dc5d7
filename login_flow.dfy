/** Classification of one QR-scan poll (`Session.scanWaiter`): a redirect
    confirms the login, an error carrying the expiry code ends the wait, any
    other error is retried on the next tick. */
module LoginFlow {
  import opened GoStrings

  /** Marker of an expired QR code in a poll error's text. */
  const ExpiredMarker: string := "window.code=408"

  /** The outcome of one `Login` poll. A redirect comes with its scheme and
      host, the two parts of the parsed URL the shard derivation uses. */
  datatype PollResult =
    | Redirected(uri: string, scheme: string, host: string)
    | PollError(text: string)

  datatype ScanAction =
    | Retry
    | Fail(err: string)
    | Confirm(uri: string, scheme: string, host: string)

  /** The decision of one poll. */
  function ScanStep(p: PollResult): (a: ScanAction)
    ensures a.Fail? <==> p.PollError? && Contains(p.text, ExpiredMarker)
    ensures a.Fail? ==> a.err == p.text
    ensures a.Retry? <==> p.PollError? && !Contains(p.text, ExpiredMarker)
    ensures a.Confirm? <==> p.Redirected?
    ensures a.Confirm? ==> a == Confirm(p.uri, p.scheme, p.host)
  {
    match p
    case PollError(text) => if Contains(text, ExpiredMarker) then Fail(text) else Retry
    case Redirected(uri, scheme, host) => Confirm(uri, scheme, host)
  }

  /** The result of the wait: the Go function returns the expiry error or
      nil; `StillWaiting` stands for input that ran out while the real loop
      would go on polling. */
  datatype ScanOutcome = StillWaiting | Expired(err: string) | LoggedIn
}
