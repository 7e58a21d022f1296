/** The subscriber: every message of the Pub/Sub channel that parses goes to every registered handler, in order. */
module RealtimeService {
  import opened Models
  import HubInvariants

  type HandlerId = nat

  datatype Call = Call(handler: HandlerId, event: Event)

  function Calls(handlers: seq<HandlerId>, e: Event): seq<Call> {
    seq(|handlers|, i requires 0 <= i < |handlers| => Call(handlers[i], e))
  }

  /** A message is `None` when it does not parse. */
  function Dispatched(messages: seq<Option<Event>>, handlers: seq<HandlerId>): seq<Call> {
    if messages == [] then [] else
      var n := |messages| - 1;
      Dispatched(messages[..n], handlers) + if messages[n].Some? then Calls(handlers, messages[n].value) else []
  }

  /** The calls one handler gets, in order. */
  function CallsOf(calls: seq<Call>, h: HandlerId): seq<Event> {
    if calls == [] then [] else
      CallsOf(calls[..|calls| - 1], h) + if calls[|calls| - 1].handler == h then [calls[|calls| - 1].event] else []
  }

  class Subscriber {
    var handlers: seq<HandlerId>
    var calls: seq<Call>

    constructor ()
      ensures handlers == [] && calls == []
    {
      handlers, calls := [], [];
    }

    /** Whatever messages come after it, the new handler gets every parsed one of them, in order, and the calls of
        the others are what they would have been. */
    method RegisterHandler(h: HandlerId)
      modifies this`handlers
      ensures handlers == old(handlers) + [h]
      ensures forall messages, g :: g != h ==>
                CallsOf(Dispatched(messages, handlers), g) == CallsOf(Dispatched(messages, old(handlers)), g)
      ensures h !in old(handlers) ==> forall messages :: CallsOf(Dispatched(messages, handlers), h) == Parsed(messages)
    {
      forall messages { RegisterAddsCalls(messages, handlers, h); }
      handlers := handlers + [h];
    }

    /** The loop over the channel, for the messages that have come so far. */
    method Receive(messages: seq<Option<Event>>)
      modifies this`calls
      ensures calls == old(calls) + Dispatched(messages, handlers)
    {
      for i := 0 to |messages|
        invariant calls == old(calls) + Dispatched(messages[..i], handlers)
      {
        assert messages[..i + 1][..i] == messages[..i];
        if messages[i].None? { continue; }
        ghost var before := calls;
        var e := messages[i].value;
        for j := 0 to |handlers|
          invariant calls == before + Calls(handlers, e)[..j]
        {
          calls := calls + [Call(handlers[j], e)];
        }
        assert calls == before + Calls(handlers, e);
      }
      assert messages[..|messages|] == messages;
    }
  }

  // ---- what a handler gets ------------------------------------------------------------------

  /** The messages the channel brings when `fate` tells which published events arrive whole. */
  function Arriving(events: seq<Event>, fate: seq<bool>): seq<Option<Event>>
    requires |fate| <= |events|
  {
    seq(|fate|, i requires 0 <= i < |fate| => if fate[i] then Some(events[i]) else None)
  }

  lemma {:induction false} CallsOfJoin(left: seq<Call>, right: seq<Call>, h: HandlerId)
    ensures CallsOf(left + right, h) == CallsOf(left, h) + CallsOf(right, h)
    decreases |right|
  {
    if right == [] {
      assert left + right == left;
    } else {
      var n := |right| - 1;
      assert (left + right)[..|left + right| - 1] == left + right[..n];
      CallsOfJoin(left, right[..n], h);
    }
  }

  /** A handler registered once is called once for each event. */
  lemma {:induction false} CalledOnce(handlers: seq<HandlerId>, e: Event, h: HandlerId)
    requires forall i, j :: 0 <= i < j < |handlers| ==> handlers[i] != handlers[j]
    ensures CallsOf(Calls(handlers, e), h) == if h in handlers then [e] else []
    decreases |handlers|
  {
    if handlers != [] {
      var n := |handlers| - 1;
      assert handlers == handlers[..n] + [handlers[n]] && handlers[n] !in handlers[..n];
      assert Calls(handlers, e)[..n] == Calls(handlers[..n], e);
      CalledOnce(handlers[..n], e, h);
    }
  }

  lemma CallsOfStep(messages: seq<Option<Event>>, handlers: seq<HandlerId>, g: HandlerId)
    requires messages != []
    ensures var n := |messages| - 1;
      CallsOf(Dispatched(messages, handlers), g) ==
      CallsOf(Dispatched(messages[..n], handlers), g)
      + if messages[n].Some? then CallsOf(Calls(handlers, messages[n].value), g) else []
  {
    var n := |messages| - 1;
    var more := if messages[n].Some? then Calls(handlers, messages[n].value) else [];
    CallsOfJoin(Dispatched(messages[..n], handlers), more, g);
  }

  /** Each handler registered once gets exactly the events that arrive, in publish order. */
  lemma {:induction false} HandlerGetsArrived(events: seq<Event>, fate: seq<bool>, handlers: seq<HandlerId>,
                                              h: HandlerId)
    requires |fate| <= |events| && h in handlers
    requires forall i, j :: 0 <= i < j < |handlers| ==> handlers[i] != handlers[j]
    ensures CallsOf(Dispatched(Arriving(events, fate), handlers), h) == HubInvariants.Select(events, fate)
    decreases |fate|
  {
    if fate != [] {
      var n := |fate| - 1;
      var messages := Arriving(events, fate);
      assert messages[..n] == Arriving(events, fate[..n]);
      HandlerGetsArrived(events, fate[..n], handlers, h);
      CalledOnce(handlers, events[n], h);
      CallsOfStep(messages, handlers, h);
    }
  }

  function Parsed(messages: seq<Option<Event>>): seq<Event> {
    if messages == [] then [] else
      var last := messages[|messages| - 1];
      Parsed(messages[..|messages| - 1]) + if last.Some? then [last.value] else []
  }

  lemma {:induction false} OthersKeepCalls(messages: seq<Option<Event>>, handlers: seq<HandlerId>, h: HandlerId,
                                           g: HandlerId)
    requires g != h
    ensures CallsOf(Dispatched(messages, handlers + [h]), g) == CallsOf(Dispatched(messages, handlers), g)
    decreases |messages|
  {
    if messages != [] {
      var n := |messages| - 1;
      OthersKeepCalls(messages[..n], handlers, h, g);
      CallsOfStep(messages, handlers + [h], g);
      CallsOfStep(messages, handlers, g);
      if messages[n].Some? { NewCall(handlers, messages[n].value, h, g); }
    }
  }

  lemma {:induction false} NewGetsAll(messages: seq<Option<Event>>, handlers: seq<HandlerId>, h: HandlerId)
    requires h !in handlers
    ensures CallsOf(Dispatched(messages, handlers + [h]), h) == Parsed(messages)
    decreases |messages|
  {
    if messages != [] {
      var n := |messages| - 1;
      NewGetsAll(messages[..n], handlers, h);
      CallsOfStep(messages, handlers + [h], h);
      if messages[n].Some? { OnlyNewCall(handlers, messages[n].value, h); }
    }
  }

  /** A newly registered handler gets every parsed message from then on, and takes none from the others. */
  lemma RegisterAddsCalls(messages: seq<Option<Event>>, handlers: seq<HandlerId>, h: HandlerId)
    ensures forall g :: g != h ==>
              CallsOf(Dispatched(messages, handlers + [h]), g) == CallsOf(Dispatched(messages, handlers), g)
    ensures h !in handlers ==> CallsOf(Dispatched(messages, handlers + [h]), h) == Parsed(messages)
  {
    forall g | g != h
      ensures CallsOf(Dispatched(messages, handlers + [h]), g) == CallsOf(Dispatched(messages, handlers), g)
    {
      OthersKeepCalls(messages, handlers, h, g);
    }
    if h !in handlers { NewGetsAll(messages, handlers, h); }
  }

  lemma {:induction false} NoCalls(handlers: seq<HandlerId>, e: Event, h: HandlerId)
    requires h !in handlers
    ensures CallsOf(Calls(handlers, e), h) == []
    decreases |handlers|
  {
    if handlers != [] {
      var n := |handlers| - 1;
      assert Calls(handlers, e)[..n] == Calls(handlers[..n], e);
      NoCalls(handlers[..n], e, h);
    }
  }

  lemma OnlyNewCall(handlers: seq<HandlerId>, e: Event, h: HandlerId)
    requires h !in handlers
    ensures CallsOf(Calls(handlers + [h], e), h) == [e]
  {
    NewCall(handlers, e, h, h);
    assert [] + [e] == [e];
  }

  lemma NewCall(handlers: seq<HandlerId>, e: Event, h: HandlerId, g: HandlerId)
    ensures CallsOf(Calls(handlers + [h], e), g) == CallsOf(Calls(handlers, e), g) + if g == h then [e] else []
    ensures h !in handlers ==> CallsOf(Calls(handlers, e), h) == []
  {
    assert Calls(handlers + [h], e) == Calls(handlers, e) + [Call(h, e)];
    assert Calls(handlers + [h], e)[..|handlers|] == Calls(handlers, e);
    if h !in handlers { NoCalls(handlers, e, h); }
  }
}
