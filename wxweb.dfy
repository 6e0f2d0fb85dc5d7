/** The session object and the operations that change its state: the shard
    derivation, the wait for the QR scan, and the consumer that starts the
    handlers of a batch (recorded in a ghost log instead of goroutines). */
module Wxweb {
  import opened GoStrings
  import opened Message
  import opened Config
  import opened LoginFlow
  import opened Dispatcher

  class Session {
    var common: Common
    var botUserName: string
    var registry: Registry

    /** Every handler start so far, in the order the consumer issued them. */
    ghost var Invocations: seq<Invocation>

    /** A session over a configuration and a handler registry, for the bot
        whose own user name is `botUserName`. */
    constructor (common: Common, botUserName: string, registry: Registry)
      ensures this.common == common && this.botUserName == botUserName
      ensures this.registry == registry && Invocations == []
    {
      this.common := common;
      this.botUserName := botUserName;
      this.registry := registry;
      Invocations := [];
    }

    /** `analizeVersion`: derive the three shard fields from the redirect
        URL's scheme and host; the frame lets no other field change. */
    method AnalyzeVersion(scheme: string, host: string)
      modifies common`CgiDomain, common`CgiUrl, common`SyncSrv
      ensures common.ShardFields() == Shard(scheme, host)
      ensures common.Fixed() == old(common.Fixed()) && common.RedirectUri == old(common.RedirectUri)
    {
      common.CgiDomain := scheme + "://" + host;
      common.CgiUrl := common.CgiDomain + CgiPath;
      if Contains(host, Wx2Marker) {
        common.SyncSrv := SyncSrvWx2;
      } else {
        common.SyncSrv := SyncSrvWx;
      }
    }

    /** `scanWaiter` over a finite sequence of poll results, one per
        three-second tick. It stops at the first poll that is not retried:
        an expired code returns that error and leaves the configuration as it
        was; a redirect is stored and the shard derived from it. */
    method ScanWaiter(polls: seq<PollResult>) returns (outcome: ScanOutcome, used: nat)
      modifies common`RedirectUri, common`CgiDomain, common`CgiUrl, common`SyncSrv
      ensures used <= |polls|
      ensures !outcome.StillWaiting? ==> 0 < used
      ensures outcome.StillWaiting? <==> used == |polls| && (used == 0 || ScanStep(polls[used - 1]).Retry?)
      ensures forall j :: 0 <= j < used - 1 ==> ScanStep(polls[j]).Retry?
      ensures outcome.Expired? ==> ScanStep(polls[used - 1]) == Fail(outcome.err)
      ensures outcome.LoggedIn? ==>
                && ScanStep(polls[used - 1]).Confirm?
                && common.RedirectUri == polls[used - 1].uri
                && common.ShardFields() == Shard(polls[used - 1].scheme, polls[used - 1].host)
      ensures !outcome.LoggedIn? ==>
                common.RedirectUri == old(common.RedirectUri) && common.ShardFields() == old(common.ShardFields())
      ensures common.Fixed() == old(common.Fixed())
    {
      used := 0;
      while used < |polls|
        invariant used <= |polls|
        invariant forall j :: 0 <= j < used ==> ScanStep(polls[j]).Retry?
        invariant common.RedirectUri == old(common.RedirectUri)
        invariant common.ShardFields() == old(common.ShardFields())
        invariant common.Fixed() == old(common.Fixed())
      {
        var step := ScanStep(polls[used]);
        used := used + 1;
        match step
        case Retry =>
        case Fail(err) =>
          return Expired(err), used;
        case Confirm(uri, scheme, host) =>
          common.RedirectUri := uri;
          AnalyzeVersion(scheme, host);
          return LoggedIn, used;
      }
      outcome := StillWaiting;
    }

    /** `consumer` on a decoded batch: nothing when the message count is
        below one; otherwise every element in list order is analysed and each
        handler registered for its type is started once, while an element
        whose type has no handlers is skipped. */
    method Consume(count: int, msgs: seq<RawMessage>)
      requires AllWellFormed(msgs)
      modifies this`Invocations
      ensures Invocations == old(Invocations) + Dispatch(registry, botUserName, count, msgs)
      ensures count < 1 ==> Invocations == old(Invocations)
    {
      if count < 1 {
        return;
      }
      var reg, bot := registry, botUserName;
      var i := 0;
      while i < |msgs|
        invariant i <= |msgs|
        invariant Invocations == old(Invocations) + DispatchAll(reg, bot, msgs[..i])
      {
        var prefix := msgs[..i + 1];
        assert prefix[..i] == msgs[..i] && prefix[i] == msgs[i];
        assert DispatchAll(reg, bot, prefix) == DispatchAll(reg, bot, msgs[..i]) + DispatchOne(reg, bot, msgs[i]);
        var m := Analyze(msgs[i], bot);
        assert DispatchOne(reg, bot, msgs[i]) == if m.MsgType in reg then InvokeAll(reg[m.MsgType], m) else [];
        if m.MsgType !in reg {
          // lookup miss: logged, and the next element is handled
          i := i + 1;
          continue;
        }
        StartHandlers(reg[m.MsgType], m);
        i := i + 1;
      }
      assert msgs[..i] == msgs;
    }

    /** The inner loop of `consumer`: start every handler of the list on the
        message, once each, in list order. */
    method StartHandlers(handlers: seq<HandlerId>, m: ReceivedMessage)
      modifies this`Invocations
      ensures Invocations == old(Invocations) + InvokeAll(handlers, m)
    {
      var j := 0;
      while j < |handlers|
        invariant j <= |handlers|
        invariant Invocations == old(Invocations) + InvokeAll(handlers[..j], m)
      {
        var started := handlers[..j + 1];
        assert started[..j] == handlers[..j] && started[j] == handlers[j];
        Invocations := Invocations + [Invocation(handlers[j], m)];
        j := j + 1;
      }
      assert handlers[..j] == handlers;
    }
  }
}
