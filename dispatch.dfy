/** What the consumer (`Session.consumer`) does with one decoded batch, as a
    specification: the sequence of handler invocations it starts, in order. */
module Dispatcher {
  import opened Message

  /** A registered handler, identified by its registration. */
  type HandlerId = nat

  /** The handler registry: the handlers of each message type, in
      registration order. A type that is not a key has no handlers. */
  type Registry = map<int, seq<HandlerId>>

  /** One start of a handler on an analysed message. */
  datatype Invocation = Invocation(handler: HandlerId, msg: ReceivedMessage)

  predicate AllWellFormed(msgs: seq<RawMessage>) {
    forall k :: 0 <= k < |msgs| ==> WellFormed(msgs[k])
  }

  /** Starting every handler of a list on one message: each handler once, in
      list order. */
  function InvokeAll(hs: seq<HandlerId>, m: ReceivedMessage): (r: seq<Invocation>)
    ensures |r| == |hs|
    ensures forall i :: 0 <= i < |hs| ==> r[i] == Invocation(hs[i], m)
  {
    if hs == [] then [] else InvokeAll(hs[..|hs| - 1], m) + [Invocation(hs[|hs| - 1], m)]
  }

  /** The invocations for one batch element: its handlers if its type has
      any, nothing (a logged lookup miss) otherwise. */
  function DispatchOne(reg: Registry, botUserName: string, raw: RawMessage): seq<Invocation>
    requires WellFormed(raw)
  {
    var m := Analyze(raw, botUserName);
    if m.MsgType in reg then InvokeAll(reg[m.MsgType], m) else []
  }

  /** The invocations for a list of elements, element by element. */
  function DispatchAll(reg: Registry, botUserName: string, msgs: seq<RawMessage>): seq<Invocation>
    requires AllWellFormed(msgs)
  {
    if msgs == [] then []
    else DispatchAll(reg, botUserName, msgs[..|msgs| - 1])
         + DispatchOne(reg, botUserName, msgs[|msgs| - 1])
  }

  /** The invocations for a batch with message count `count`: none when the
      count is below one, otherwise those of every element of the list. */
  function Dispatch(reg: Registry, botUserName: string, count: int, msgs: seq<RawMessage>): seq<Invocation>
    requires AllWellFormed(msgs)
  {
    if count < 1 then [] else DispatchAll(reg, botUserName, msgs)
  }

  /** Dispatching two lists one after the other is dispatching their
      concatenation: elements are handled in list order, and what happens to
      one element does not depend on the others. */
  lemma {:induction false} DispatchAllConcat(reg: Registry, botUserName: string, a: seq<RawMessage>, b: seq<RawMessage>)
    requires AllWellFormed(a) && AllWellFormed(b)
    ensures AllWellFormed(a + b)
    ensures DispatchAll(reg, botUserName, a + b)
            == DispatchAll(reg, botUserName, a) + DispatchAll(reg, botUserName, b)
    decreases |b|
  {
    if b != [] {
      var b' := b[..|b| - 1];
      assert (a + b)[..|a + b| - 1] == a + b';
      assert (a + b)[|a + b| - 1] == b[|b| - 1];
      DispatchAllConcat(reg, botUserName, a, b');
    } else {
      assert a + b == a;
    }
  }

  /** The invocations of a list are those of the elements before the k-th,
      then exactly one per registered handler of the k-th element's type, in
      registration order, then those of the elements after it. */
  lemma {:induction false} DispatchSegment(reg: Registry, botUserName: string, msgs: seq<RawMessage>, k: nat)
    requires AllWellFormed(msgs) && k < |msgs|
    ensures AllWellFormed(msgs[..k]) && AllWellFormed(msgs[k + 1..])
    ensures var m := Analyze(msgs[k], botUserName);
      var seg := DispatchOne(reg, botUserName, msgs[k]);
      && DispatchAll(reg, botUserName, msgs)
         == DispatchAll(reg, botUserName, msgs[..k]) + seg + DispatchAll(reg, botUserName, msgs[k + 1..])
      && (m.MsgType !in reg ==> seg == [])
      && (m.MsgType in reg ==> |seg| == |reg[m.MsgType]|
                               && forall i :: 0 <= i < |seg| ==> seg[i] == Invocation(reg[m.MsgType][i], m))
  {
    assert msgs == msgs[..k + 1] + msgs[k + 1..];
    assert AllWellFormed(msgs[..k + 1]);
    DispatchAllConcat(reg, botUserName, msgs[..k + 1], msgs[k + 1..]);
    assert msgs[..k + 1][..k] == msgs[..k];
    assert msgs[..k + 1][k] == msgs[k];
  }

  /** An element whose type has no handlers is skipped: the batch starts
      exactly what it would start without that element, so later elements are
      still dispatched. */
  lemma {:induction false} UnregisteredSkipped(reg: Registry, botUserName: string, msgs: seq<RawMessage>, k: nat)
    requires AllWellFormed(msgs) && k < |msgs|
    requires Analyze(msgs[k], botUserName).MsgType !in reg
    ensures AllWellFormed(msgs[..k] + msgs[k + 1..])
    ensures DispatchAll(reg, botUserName, msgs) == DispatchAll(reg, botUserName, msgs[..k] + msgs[k + 1..])
  {
    DispatchSegment(reg, botUserName, msgs, k);
    DispatchAllConcat(reg, botUserName, msgs[..k], msgs[k + 1..]);
  }

  /** Two elements of which only the first has a registered handler: that
      handler is started once, on the first, and nothing else happens. */
  lemma {:induction false} OnlyRegisteredTypeDispatched(botUserName: string, r1: RawMessage, r2: RawMessage, h: HandlerId)
    requires WellFormed(r1) && WellFormed(r2)
    requires r1["MsgType"].num != r2["MsgType"].num
    ensures Dispatch(map[r1["MsgType"].num := [h]], botUserName, 2, [r1, r2])
            == [Invocation(h, Analyze(r1, botUserName))]
  {
    var reg := map[r1["MsgType"].num := [h]];
    var m1 := Analyze(r1, botUserName);
    assert [r1, r2][..1] == [r1];
    assert [r1][..0] == [];
    assert DispatchAll(reg, botUserName, [r1]) == DispatchOne(reg, botUserName, r1);
    assert DispatchOne(reg, botUserName, r2) == [];
    var r := InvokeAll([h], m1);
    assert |r| == 1 && r[0] == Invocation(h, m1);
  }

  /** Two handlers registered for one type are both started, once each, in
      registration order. */
  lemma {:induction false} BothHandlersDispatched(botUserName: string, raw: RawMessage, h1: HandlerId, h2: HandlerId)
    requires WellFormed(raw)
    ensures var m := Analyze(raw, botUserName);
      Dispatch(map[m.MsgType := [h1, h2]], botUserName, 1, [raw]) == [Invocation(h1, m), Invocation(h2, m)]
  {
    var m := Analyze(raw, botUserName);
    var r := InvokeAll([h1, h2], m);
    assert |r| == 2 && r[0] == Invocation(h1, m) && r[1] == Invocation(h2, m);
    assert [raw][..0] == [];
    assert DispatchAll(map[m.MsgType := [h1, h2]], botUserName, [raw]) == r;
  }
}
