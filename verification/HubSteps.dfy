/** What one step of the hub does to its clients, rooms and queues, in every reachable state. */
module HubSteps {
  import opened Models
  import opened HubMachine
  import opened HubInvariants
  import opened HubTheorems

  /** A taken registration puts its client in the room of its own poll, open and with nothing delivered yet,
      whether or not the room was there; nobody else is touched. */
  lemma AdmitsExactly<M(!new)>(s: State<M>)
    requires Reachable(s) && s.phase.Selecting? && s.register != []
    ensures var c, t := s.register[0], Apply(s, TakeRegister);
      && c < |s.conns| == |t.conns| && t.conns[c].place.InRoom? && !t.conns[c].closed
      && t.conns[c].poll == s.conns[c].poll && t.conns[c].buf == s.conns[c].buf
      && t.conns[c].offered == [] && t.conns[c].enqueued == []
      && t.conns[c].regAt == |RoomLog(s.taken, s.conns[c].poll)|
      && c !in Room(s, s.conns[c].poll) && Room(t, s.conns[c].poll) == Room(s, s.conns[c].poll) + {c}
      && (forall q :: q != s.conns[c].poll ==> Room(t, q) == Room(s, q))
      && (forall d: nat :: d < |s.conns| && d != c ==> t.conns[d] == s.conns[d])
      && t.register == s.register[1..] && t.unregister == s.unregister && t.broadcast == s.broadcast
      && t.phase == s.phase && t.taken == s.taken
  {
    ReachableOk(s);
    var c := s.register[0];
    assert c in s.register && ConnPlaced(s, c) && ConnOk(s, c);
    NothingSelected<M>(RoomLog(s.taken, s.conns[c].poll)[s.conns[c].regAt..]);
  }

  lemma NothingSelected<M>(log: seq<M>)
    ensures Select(log, []) == []
  {
  }

  /** A taken unregistration closes its client's channel and takes it out of its room, if it is there, and otherwise
      changes nothing; nobody else is touched. */
  lemma DismissesExactly<M(!new)>(s: State<M>)
    requires Reachable(s) && s.phase.Selecting? && s.unregister != []
    ensures var c, t := s.unregister[0], Apply(s, TakeUnregister);
      && c < |s.conns| == |t.conns| && t.unregister == s.unregister[1..] && t.register == s.register
      && t.broadcast == s.broadcast && t.phase == s.phase && t.taken == s.taken
      && (forall d: nat :: d < |s.conns| && d != c ==> t.conns[d] == s.conns[d])
      && (forall q :: q != s.conns[c].poll ==> Room(t, q) == Room(s, q))
      && Room(t, s.conns[c].poll) == Room(s, s.conns[c].poll) - {c}
      && (if s.conns[c].place.InRoom? then
            && t.conns[c].place.Gone? && t.conns[c].closed && t.conns[c].buf == s.conns[c].buf
            && c in Room(s, s.conns[c].poll)
          else t.conns[c] == s.conns[c] && c !in Room(s, s.conns[c].poll))
  {
    ReachableOk(s);
    var c := s.unregister[0];
    assert c in s.unregister && ConnPlaced(s, c);
    if s.conns[c].place.InRoom? { LeaveRooms(s, Dismiss(s), c); }
  }

  /** A broadcast is taken from the front of its queue for exactly the clients of its room, each once. */
  lemma StartsExactly<M(!new)>(s: State<M>, order: seq<ClientId>)
    requires Reachable(s) && s.phase.Selecting? && s.broadcast != []
    ensures var t, msg := Apply(s, TakeBroadcast(order)), s.broadcast[0];
      if (forall i, j :: 0 <= i < j < |order| ==> order[i] != order[j])
         && forall c :: c in order <==> c in Watching(s, msg.poll)
      then t == s.(broadcast := s.broadcast[1..], taken := s.taken + [msg], phase := Sending(msg, order))
      else t == s
  {
    RoomsAreClients(s, s.broadcast[0].poll);
  }

  /** Whoever has fewer than 256 messages waiting gets the next one, at the end; at 256 it gets nothing and is to be
      evicted; nobody else is touched. */
  lemma SendsExactly<M(!new)>(s: State<M>)
    requires Reachable(s) && s.phase.Sending? && s.phase.targets != []
    ensures var c, t := s.phase.targets[0], Apply(s, SendNext);
      && c < |s.conns| == |t.conns| && !t.panicked
      && (forall d: nat :: d < |s.conns| && d != c ==> t.conns[d] == s.conns[d])
      && t.unregister == s.unregister && t.rooms == s.rooms && t.taken == s.taken
      && (if |s.conns[c].buf| < 256 then
            && t.conns[c].buf == s.conns[c].buf + [s.phase.msg.payload]
            && t.conns[c].enqueued == s.conns[c].enqueued + [s.phase.msg.payload]
            && t.phase == Sending(s.phase.msg, s.phase.targets[1..])
          else
            && t.conns[c].buf == s.conns[c].buf && t.conns[c].enqueued == s.conns[c].enqueued
            && t.phase == Evicting(s.phase.msg, c, s.phase.targets[1..]))
  {
    ReachableOk(s);
    var c := s.phase.targets[0];
    assert c in s.phase.targets && Member(s, c, s.phase.msg.poll) && ConnPlaced(s, c);
  }

  /** An eviction joins the end of the unregister queue as soon as fewer than 256 are pending, and waits until then. */
  lemma EvictsExactly<M(!new)>(s: State<M>)
    requires Reachable(s) && s.phase.Evicting?
    ensures var t := Apply(s, PushEviction);
      if |s.unregister| < 256 then
        t == s.(unregister := s.unregister + [s.phase.client], phase := Sending(s.phase.msg, s.phase.targets))
      else t == s
  {
  }

  /** The queues take 256 registrations, 256 unregistrations and 1024 broadcasts, in order, and no more. */
  lemma QueuesExactly<M>(s: State<M>, p: PollId, msg: Msg<M>, c: ClientId)
    ensures Apply(s, Connect(p)).register == s.register + if |s.register| < 256 then [|s.conns|] else []
    ensures Apply(s, Enqueue(msg)).broadcast == s.broadcast + if |s.broadcast| < 1024 then [msg] else []
    ensures c < |s.conns| && s.conns[c].reading ==>
              Apply(s, ReaderExit(c)).unregister == s.unregister + if |s.unregister| < 256 then [c] else []
  {
  }

  /** A waiting pump takes the oldest message; once its channel is closed and empty it sends the close frame and
      returns; a failed ping or write ends it. */
  lemma ReceivesExactly<M>(s: State<M>, c: ClientId, ok: bool)
    requires c < |s.conns| && s.conns[c].pump.Waiting?
    ensures var k, l := s.conns[c], Apply(s, Receive(c, ok)).conns[c];
      if k.buf != [] then
        l.buf == k.buf[1..] && l.wire == k.wire && (if ok then l.pump == Opened(k.buf[0]) else l.pump.Stopped?)
      else if k.closed then l.pump.Stopped? && l.wire == k.wire + if ok then [Close] else []
      else l == k
    ensures var k, l := s.conns[c], Apply(s, SendPing(c, ok)).conns[c];
      l.buf == k.buf && l.wire == k.wire + (if ok then [Ping] else []) && (l.pump.Stopped? <==> !ok)
  {
    assert s.conns[c].wire + [] == s.conns[c].wire;
  }

  /** A batch is the message received, then as many as were waiting, oldest first, and goes out as one frame. */
  lemma BatchesExactly<M>(s: State<M>, c: ClientId, ok: bool)
    requires c < |s.conns|
    ensures var k, l := s.conns[c], Apply(s, Sample(c)).conns[c];
      k.pump.Opened? ==> l.pump == Flushing([k.pump.first], |k.buf|) && l.buf == k.buf && l.wire == k.wire
    ensures var k, l := s.conns[c], Apply(s, Flush(c)).conns[c];
      k.pump.Flushing? && k.pump.left > 0 && k.buf != [] ==>
        l.buf == k.buf[1..] && l.pump == Flushing(k.pump.parts + [k.buf[0]], k.pump.left - 1) && l.wire == k.wire
    ensures var k, l := s.conns[c], Apply(s, Finish(c, ok)).conns[c];
      k.pump.Flushing? && k.pump.left == 0 ==>
        l.buf == k.buf && if ok then l.pump.Waiting? && l.wire == k.wire + [Text(k.pump.parts)]
                          else l.pump.Stopped? && l.wire == k.wire
  {
  }

  // ---- counting clients ---------------------------------------------------------------------

  /** The client count of a poll goes up by one with each registration for it, and for no other. */
  lemma AdmissionCounts<M(!new)>(s: State<M>, q: PollId)
    requires Reachable(s) && s.phase.Selecting? && s.register != []
    ensures s.register[0] < |s.conns|
    ensures |Watching(Apply(s, TakeRegister), q)| ==
            |Watching(s, q)| + if q == s.conns[s.register[0]].poll then 1 else 0
  {
    AdmitsExactly(s);
    ReachableStep(s, TakeRegister);
    RoomsAreClients(s, q);
    RoomsAreClients(Apply(s, TakeRegister), q);
  }

  /** It goes down by one with the first unregistration of a client in the room. */
  lemma DismissalCounts<M(!new)>(s: State<M>, q: PollId)
    requires Reachable(s) && s.phase.Selecting? && s.unregister != []
    ensures s.unregister[0] < |s.conns|
    ensures var k := s.conns[s.unregister[0]];
      |Watching(Apply(s, TakeUnregister), q)| == |Watching(s, q)| - if q == k.poll && k.place.InRoom? then 1 else 0
  {
    DismissesExactly(s);
    ReachableStep(s, TakeUnregister);
    RoomsAreClients(s, q);
    RoomsAreClients(Apply(s, TakeUnregister), q);
  }
}
