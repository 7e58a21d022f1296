/** Where the hub's messages come from: nothing on a socket that was not broadcast to its room. */
module HubOrigin {
  import opened Models
  import opened HubMachine
  import opened HubInvariants

  /** Every message ever accepted by the broadcast queue, in order. */
  function Incoming<M>(s: State<M>): seq<Msg<M>> { s.taken + s.broadcast }

  lemma IncomingStep<M>(s: State<M>, a: Step<M>)
    ensures Incoming(Apply(s, a)) ==
            Incoming(s) + if a.Enqueue? && |s.broadcast| < BROADCAST_CAP then [a.msg] else []
  {
    match a {
      case TakeBroadcast(order) => assert s.broadcast != [] ==> s.broadcast == [s.broadcast[0]] + s.broadcast[1..];
      case Enqueue(msg) =>
      case Connect(_) =>
      case TakeRegister =>
      case TakeUnregister =>
      case SendNext =>
      case PushEviction =>
      case ReaderExit(_) =>
      case _ => PumpIncoming(s, a);
    }
  }

  lemma PumpIncoming<M>(s: State<M>, a: Step<M>)
    requires a.Receive? || a.Sample? || a.Flush? || a.Finish? || a.SendPing?
    ensures Incoming(Apply(s, a)) == Incoming(s)
  {
  }

  lemma {:induction false} SelectFrom<M>(s: seq<M>, flags: seq<bool>, m: M)
    requires |flags| <= |s| && m in Select(s, flags)
    ensures m in s
    decreases |flags|
  {
    if flags != [] && m !in [s[|flags| - 1]] { SelectFrom(s, flags[..|flags| - 1], m); }
  }

  lemma {:induction false} RoomLogFrom<M>(taken: seq<Msg<M>>, p: PollId, m: M)
    ensures m in RoomLog(taken, p) <==> Msg(p, m) in taken
    decreases |taken|
  {
    if taken != [] {
      assert taken == taken[..|taken| - 1] + [taken[|taken| - 1]];
      RoomLogFrom(taken[..|taken| - 1], p, m);
    }
  }

  lemma {:induction false} FlattenHas<M>(wire: seq<Frame<M>>, f: Frame<M>, m: M)
    requires f in wire && f.Text? && m in f.parts
    ensures m in Flatten(wire)
    decreases |wire|
  {
    assert wire == wire[..|wire| - 1] + [wire[|wire| - 1]];
    if f != wire[|wire| - 1] { FlattenHas(wire[..|wire| - 1], f, m); }
  }

  /** Whatever a client was given was broadcast to its own room. */
  lemma EnqueuedFrom<M>(s: State<M>, c: ClientId, m: M)
    requires Invariant(s) && c < |s.conns| && m in s.conns[c].enqueued
    ensures Msg(s.conns[c].poll, m) in s.taken
  {
    var k := s.conns[c];
    assert ConnOk(s, c);
    var log := RoomLog(s.taken, k.poll);
    SelectFrom(log[k.regAt..], k.offered, m);
    assert m in log;
    RoomLogFrom(s.taken, k.poll, m);
  }

  /** So was every message of every frame its socket carried. */
  lemma WireFrom<M>(s: State<M>, c: ClientId, f: Frame<M>, m: M)
    requires Invariant(s) && c < |s.conns| && f in s.conns[c].wire && f.Text? && m in f.parts
    ensures Msg(s.conns[c].poll, m) in s.taken
  {
    var k := s.conns[c];
    FlattenHas(k.wire, f, m);
    assert ConnOk(s, c);
    assert m in Flatten(k.wire) + InHand(k) + k.buf;
    EnqueuedFrom(s, c, m);
  }

  /** The messages a run offers to the broadcast queue are the only ones that come in. */
  lemma {:induction false} IncomingFrom<M>(run: seq<Step<M>>, m: Msg<M>)
    requires m in Incoming(Exec(Init(), run))
    ensures Enqueue(m) in run
    decreases |run|
  {
    if run != [] {
      var n := |run| - 1;
      IncomingStep(Exec(Init(), run[..n]), run[n]);
      if m in Incoming(Exec(Init(), run[..n])) { IncomingFrom(run[..n], m); }
    }
  }
}
