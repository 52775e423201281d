/** SignalingClient: an in-process stand-in for a signaling server.  It holds
    a single Callback slot; every send* hands its payload, synchronously and
    unchanged, to the matching Callback method, or drops it when the slot is
    null. */
module Signaling {
  import opened Media

  /** Identity of a SignalingClient.Callback object. */
  datatype HandlerRef = HandlerRef(id: nat)

  /** What a send* operation is asked to transmit. */
  datatype Message =
    | OfferMsg(offer: SessionDescription)
    | AnswerMsg(answer: SessionDescription)
    | CandidateMsg(sdpMid: Option<string>, sdpMLineIndex: int, candidate: string)

  /** One invocation of a SignalingClient.Callback method, with its arguments. */
  datatype Call =
    | OnOfferReceived(offer: SessionDescription)
    | OnAnswerReceived(answer: SessionDescription)
    | OnIceCandidateReceived(sdpMid: Option<string>, sdpMLineIndex: int, candidate: string)

  /** A Callback method invoked on a given handler object. */
  datatype Invocation = Invocation(handler: HandlerRef, call: Call)

  /** The message a Callback invocation carries. */
  function MessageOf(c: Call): Message {
    match c
    case OnOfferReceived(o) => OfferMsg(o)
    case OnAnswerReceived(a) => AnswerMsg(a)
    case OnIceCandidateReceived(mid, idx, cand) => CandidateMsg(mid, idx, cand)
  }

  /** The Callback method a send* invokes: sendOffer calls onOfferReceived,
      sendAnswer calls onAnswerReceived, sendIceCandidate calls
      onIceCandidateReceived, each with its arguments passed through. */
  function CallFor(m: Message): (c: Call)
    ensures MessageOf(c) == m
    ensures c.OnOfferReceived? <==> m.OfferMsg?
    ensures c.OnAnswerReceived? <==> m.AnswerMsg?
    ensures c.OnIceCandidateReceived? <==> m.CandidateMsg?
  {
    match m
    case OfferMsg(o) => OnOfferReceived(o)
    case AnswerMsg(a) => OnAnswerReceived(a)
    case CandidateMsg(mid, idx, cand) => OnIceCandidateReceived(mid, idx, cand)
  }

  /** The invocations one send* makes when the slot holds `slot`. */
  function Deliver(slot: Option<HandlerRef>, m: Message): (r: seq<Invocation>)
    ensures |r| == (if slot.Some? then 1 else 0)
    ensures forall inv | inv in r :: slot == Some(inv.handler) && MessageOf(inv.call) == m
  {
    if slot.Some? then [Invocation(slot.value, CallFor(m))] else []
  }

  /** The observable state of a SignalingClient: its slot, and every handler
      invocation it has made so far. */
  datatype Relay = Relay(callback: Option<HandlerRef>, delivered: seq<Invocation>)

  /** The client's public operations. */
  datatype Op = SetCallback(cb: Option<HandlerRef>) | Send(msg: Message)

  function Apply(r: Relay, op: Op): Relay {
    match op
    case SetCallback(cb) => Relay(cb, r.delivered)
    case Send(m) => Relay(r.callback, r.delivered + Deliver(r.callback, m))
  }

  /** The state after performing `ops` in order, starting from `r`. */
  function Run(r: Relay, ops: seq<Op>): Relay
    decreases |ops|
  {
    if |ops| == 0 then r else Apply(Run(r, ops[..|ops| - 1]), ops[|ops| - 1])
  }

  predicate AllSends(ops: seq<Op>) {
    forall i | 0 <= i < |ops| :: ops[i].Send?
  }

  /** Running two batches of operations is running their concatenation. */
  lemma {:induction false} RunAppend(r: Relay, a: seq<Op>, b: seq<Op>)
    ensures Run(r, a + b) == Run(Run(r, a), b)
    decreases |b|
  {
    if |b| == 0 {
      assert a + b == a;
    } else {
      assert (a + b)[..|a + b| - 1] == a + b[..|b| - 1];
      RunAppend(r, a, b[..|b| - 1]);
    }
  }

  /** No send* changes the slot, and nothing already delivered is retracted. */
  lemma {:induction false} SendsKeepSlot(r: Relay, ops: seq<Op>)
    requires AllSends(ops)
    ensures Run(r, ops).callback == r.callback
    ensures r.delivered <= Run(r, ops).delivered
    decreases |ops|
  {
    if |ops| > 0 {
      SendsKeepSlot(r, ops[..|ops| - 1]);
    }
  }

  /** With a handler registered, a batch of sends invokes that handler once
      per send, in the order of the sends, with each payload unchanged. */
  lemma {:induction false} SendsDeliveredInOrder(r: Relay, h: HandlerRef, ops: seq<Op>)
    requires r.callback == Some(h) && AllSends(ops)
    ensures var s := Run(r, ops);
      && |s.delivered| == |r.delivered| + |ops|
      && s.delivered[..|r.delivered|] == r.delivered
      && forall i | 0 <= i < |ops| ::
           s.delivered[|r.delivered| + i] == Invocation(h, CallFor(ops[i].msg))
    decreases |ops|
  {
    if |ops| > 0 {
      var init := ops[..|ops| - 1];
      SendsDeliveredInOrder(r, h, init);
      SendsKeepSlot(r, init);
      var s0 := Run(r, init);
      var s := Run(r, ops);
      assert s.delivered == s0.delivered + [Invocation(h, CallFor(ops[|ops| - 1].msg))];
      forall i | 0 <= i < |ops|
        ensures s.delivered[|r.delivered| + i] == Invocation(h, CallFor(ops[i].msg))
      {
        if i < |ops| - 1 {
          assert init[i] == ops[i];
        }
      }
    }
  }

  /** With no handler registered, sends are dropped, not queued: they leave
      the state exactly as it was, so whatever follows behaves as if they had
      never been made. */
  lemma {:induction false} DroppedNotQueued(r: Relay, dropped: seq<Op>, later: seq<Op>)
    requires r.callback.None? && AllSends(dropped)
    ensures Run(r, dropped + later) == Run(r, later)
  {
    DropsLeaveState(r, dropped);
    RunAppend(r, dropped, later);
  }

  /** With no handler registered, a batch of sends leaves the state as it was. */
  lemma {:induction false} DropsLeaveState(r: Relay, dropped: seq<Op>)
    requires r.callback.None? && AllSends(dropped)
    ensures Run(r, dropped) == r
    decreases |dropped|
  {
    if |dropped| > 0 {
      DropsLeaveState(r, dropped[..|dropped| - 1]);
    }
  }

  /** setCallback replaces the slot: after registering `h`, and until the next
      setCallback, every invocation goes to `h` and to no earlier handler. */
  lemma {:induction false} LastRegisteredHandlerOnly(r: Relay, before: seq<Op>, h: HandlerRef, after: seq<Op>)
    requires AllSends(after)
    ensures var s := Run(r, before + [SetCallback(Some(h))] + after);
      var n := |Run(r, before).delivered|;
      && s.callback == Some(h)
      && n <= |s.delivered|
      && forall i | n <= i < |s.delivered| :: s.delivered[i].handler == h
  {
    var mid := Run(r, before + [SetCallback(Some(h))]);
    assert (before + [SetCallback(Some(h))])[..|before|] == before;
    assert mid == Relay(Some(h), Run(r, before).delivered);
    RunAppend(r, before + [SetCallback(Some(h))], after);
    SendsKeepSlot(mid, after);
    SendsDeliveredInOrder(mid, h, after);
    var s := Run(mid, after);
    forall i | |mid.delivered| <= i < |s.delivered|
      ensures s.delivered[i].handler == h
    {
      var k := i - |mid.delivered|;
      assert s.delivered[|mid.delivered| + k] == Invocation(h, CallFor(after[k].msg));
    }
  }

  /** SignalingClient.  `delivered` records the Callback invocations made,
      which is all a send* does besides logging. */
  class SignalingClient {
    var callback: Option<HandlerRef>
    var delivered: seq<Invocation>

    function State(): Relay
      reads this
    {
      Relay(callback, delivered)
    }

    constructor ()
      ensures State() == Relay(None, [])
    {
      callback := None;
      delivered := [];
    }

    method SetCallback(cb: Option<HandlerRef>)
      modifies this
      ensures State() == Apply(old(State()), Op.SetCallback(cb))
      ensures callback == cb && delivered == old(delivered)
    {
      callback := cb;
    }

    method SendOffer(offer: SessionDescription)
      modifies this
      ensures State() == Apply(old(State()), Send(OfferMsg(offer)))
      ensures callback == old(callback)
      ensures delivered == old(delivered) + Deliver(callback, OfferMsg(offer))
    {
      if callback.Some? {
        delivered := delivered + [Invocation(callback.value, OnOfferReceived(offer))];
      }
    }

    method SendAnswer(answer: SessionDescription)
      modifies this
      ensures State() == Apply(old(State()), Send(AnswerMsg(answer)))
      ensures callback == old(callback)
      ensures delivered == old(delivered) + Deliver(callback, AnswerMsg(answer))
    {
      if callback.Some? {
        delivered := delivered + [Invocation(callback.value, OnAnswerReceived(answer))];
      }
    }

    method SendIceCandidate(sdpMid: Option<string>, sdpMLineIndex: int, candidate: string)
      modifies this
      ensures State() == Apply(old(State()), Send(CandidateMsg(sdpMid, sdpMLineIndex, candidate)))
      ensures callback == old(callback)
      ensures delivered == old(delivered) + Deliver(callback, CandidateMsg(sdpMid, sdpMLineIndex, candidate))
    {
      if callback.Some? {
        delivered := delivered + [Invocation(callback.value, OnIceCandidateReceived(sdpMid, sdpMLineIndex, candidate))];
      }
    }
  }
}
