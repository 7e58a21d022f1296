/** What holds in every reachable state of the hub, whatever order the queues are taken in. */
module HubInvariants {
  import opened Models
  import opened HubMachine

  // ---- structure: rooms, queues and channels ------------------------------------------------

  function Outstanding<M>(s: State<M>): seq<ClientId> {
    if s.phase.Selecting? then [] else s.phase.targets
  }

  ghost predicate Member<M>(s: State<M>, c: ClientId, p: PollId) {
    c < |s.conns| && s.conns[c].place.InRoom? && s.conns[c].poll == p
  }

  ghost predicate ConnPlaced<M>(s: State<M>, c: ClientId)
    requires c < |s.conns|
  {
    && (s.conns[c].place.Queued? <==> c in s.register)
    && (s.conns[c].place.InRoom? <==> c in Room(s, s.conns[c].poll))
    && (s.conns[c].closed <==> s.conns[c].place.Gone?)
  }

  ghost predicate PhaseOk<M>(s: State<M>) {
    !s.phase.Selecting? ==>
      && s.taken != [] && s.taken[|s.taken| - 1] == s.phase.msg
      && (forall i, j :: 0 <= i < j < |s.phase.targets| ==> s.phase.targets[i] != s.phase.targets[j])
      && (forall c :: c in s.phase.targets ==> Member(s, c, s.phase.msg.poll))
      && (s.phase.Evicting? ==> Member(s, s.phase.client, s.phase.msg.poll) && s.phase.client !in s.phase.targets)
  }

  ghost predicate Structure<M>(s: State<M>) {
    && !s.panicked && |s.register| <= QUEUE_CAP && |s.unregister| <= QUEUE_CAP
    && (forall i, j :: 0 <= i < j < |s.register| ==> s.register[i] != s.register[j])
    && (forall c :: c in s.register || c in s.unregister ==> c < |s.conns|)
    && (forall p :: p in s.rooms ==> s.rooms[p] != {})
    && (forall p, c :: c in Room(s, p) ==> Member(s, c, p))
    && (forall c: nat :: c < |s.conns| ==> ConnPlaced(s, c))
    && PhaseOk(s)
  }

  // ---- delivery -----------------------------------------------------------------------------

  /** The elements of `s` whose flag is set. */
  function Select<M>(s: seq<M>, flags: seq<bool>): seq<M>
    requires |flags| <= |s|
  {
    if flags == [] then [] else
      var n := |flags| - 1;
      Select(s, flags[..n]) + if flags[n] then [s[n]] else []
  }

  /** The messages of the data frames, flattened in order. */
  function Flatten<M>(wire: seq<Frame<M>>): seq<M> {
    if wire == [] then [] else
      Flatten(wire[..|wire| - 1]) + if wire[|wire| - 1].Text? then wire[|wire| - 1].parts else []
  }

  function InHand<M>(k: Conn<M>): seq<M> {
    match k.pump
    case Waiting => []
    case Opened(m) => [m]
    case Flushing(parts, _) => parts
    case Stopped => k.lost
  }

  /** The write pump: frames, then the batch in hand (or lost to a write error), then the buffer, are all the
      hub enqueued; the flush loop never asks for more than is buffered; no data frame is empty and the close frame
      is last. */
  ghost predicate PumpOk<M>(k: Conn<M>) {
    && Flatten(k.wire) + InHand(k) + k.buf == k.enqueued
    && |k.buf| <= SEND_CAP && (!k.pump.Stopped? ==> k.lost == [])
    && (k.pump.Flushing? ==> k.pump.left <= |k.buf| && k.pump.parts != [])
    && Text([]) !in k.wire
    && (Close in k.wire ==>
          && k.pump.Stopped? && k.closed && k.buf == [] && k.lost == []
          && k.wire[|k.wire| - 1] == Close && Close !in k.wire[..|k.wire| - 1])
  }

  ghost predicate ConnOk<M>(s: State<M>, c: ClientId)
    requires c < |s.conns|
  {
    var k := s.conns[c];
    var log := RoomLog(s.taken, k.poll);
    && PumpOk(k)
    && (k.place.Queued? ==> k.offered == [] && k.regAt == 0)
    && k.regAt + |k.offered| <= |log|
    && (k.place.InRoom? ==> k.regAt + |k.offered| + (if c in Outstanding(s) then 1 else 0) == |log|)
    && k.enqueued == Select(log[k.regAt..], k.offered)
    && (false in k.offered ==>
          k.place.Gone? || c in s.unregister || (s.phase.Evicting? && s.phase.client == c))
  }

  ghost predicate Invariant<M>(s: State<M>) {
    Structure(s) && forall c: nat :: c < |s.conns| ==> ConnOk(s, c)
  }

  // ---- the write pump's own steps -----------------------------------------------------------

  lemma FlattenPush<M>(wire: seq<Frame<M>>, f: Frame<M>)
    ensures Flatten(wire + [f]) == Flatten(wire) + if f.Text? then f.parts else []
  {
    assert (wire + [f])[..|wire|] == wire;
  }

  /** `k` and `l` differ only by what the write pump does. */
  ghost predicate PumpMove<M>(k: Conn<M>, l: Conn<M>) {
    && l.poll == k.poll && l.place == k.place && l.closed == k.closed && l.regAt == k.regAt
    && l.offered == k.offered && l.enqueued == k.enqueued && PumpOk(l)
  }

  lemma ReceiveOk<M>(k: Conn<M>, ok: bool)
    requires PumpOk(k)
    ensures PumpMove(k, PumpReceive(k, ok))
  {
    FlattenPush(k.wire, Close);
    assert k.wire + [] == k.wire;
    if k.buf != [] {
      assert k.buf == [k.buf[0]] + k.buf[1..];
      assert Flatten(k.wire) + k.buf == Flatten(k.wire) + [k.buf[0]] + k.buf[1..];
    }
  }

  lemma SampleOk<M>(k: Conn<M>)
    requires PumpOk(k)
    ensures PumpMove(k, PumpSample(k))
  {
  }

  lemma FlushOk<M>(k: Conn<M>)
    requires PumpOk(k)
    ensures PumpMove(k, PumpFlush(k))
  {
    if k.buf != [] { assert k.buf == [k.buf[0]] + k.buf[1..]; }
  }

  lemma FinishOk<M>(k: Conn<M>, ok: bool)
    requires PumpOk(k)
    ensures PumpMove(k, PumpFinish(k, ok))
  {
    if k.pump.Flushing? { FlattenPush(k.wire, Text(k.pump.parts)); }
  }

  lemma PingOk<M>(k: Conn<M>, ok: bool)
    requires PumpOk(k)
    ensures PumpMove(k, PumpPing(k, ok))
  {
    FlattenPush(k.wire, Ping);
  }

  /** Steps of one write pump keep everything. */
  lemma PumpKeeps<M>(s: State<M>, c: ClientId, l: Conn<M>)
    requires Invariant(s) && c < |s.conns| && PumpMove(s.conns[c], l)
    ensures Invariant(WithConn(s, c, l))
  {
    var t := WithConn(s, c, l);
    forall d: nat | d < |t.conns| ensures ConnPlaced(t, d) && ConnOk(t, d) {
      assert ConnPlaced(s, d) && ConnOk(s, d);
    }
    forall p, d | d in Room(t, p) ensures Member(t, d, p) { assert Member(s, d, p); }
    assert PhaseOk(t) by {
      assert PhaseOk(s);
      assert forall d, p :: Member(s, d, p) ==> Member(t, d, p);
    }
  }

  function Pumped<M>(k: Conn<M>, a: Step<M>): Conn<M>
    requires IsPumpStep(a)
  {
    match a
    case Receive(_, ok) => PumpReceive(k, ok)
    case Sample(_) => PumpSample(k)
    case Flush(_) => PumpFlush(k)
    case Finish(_, ok) => PumpFinish(k, ok)
    case SendPing(_, ok) => PumpPing(k, ok)
  }

  predicate IsPumpStep<M>(a: Step<M>) { a.Receive? || a.Sample? || a.Flush? || a.Finish? || a.SendPing? }

  lemma PumpedOk<M>(k: Conn<M>, a: Step<M>)
    requires PumpOk(k) && IsPumpStep(a)
    ensures PumpMove(k, Pumped(k, a))
  {
    match a {
      case Receive(_, ok) => ReceiveOk(k, ok);
      case Sample(_) => SampleOk(k);
      case Flush(_) => FlushOk(k);
      case Finish(_, ok) => FinishOk(k, ok);
      case SendPing(_, ok) => PingOk(k, ok);
    }
  }

  /** A pump step changes its own client and nothing else. */
  lemma PumpStepIs<M>(s: State<M>, a: Step<M>)
    requires IsPumpStep(a)
    ensures Apply(s, a) == if a.c < |s.conns| then WithConn(s, a.c, Pumped(s.conns[a.c], a)) else s
  {
  }

  lemma PumpStepKeeps<M>(s: State<M>, a: Step<M>)
    requires Invariant(s) && IsPumpStep(a)
    ensures Invariant(Apply(s, a))
  {
    PumpStepIs(s, a);
    if a.c < |s.conns| {
      assert ConnOk(s, a.c);
      PumpedOk(s.conns[a.c], a);
      PumpKeeps(s, a.c, Pumped(s.conns[a.c], a));
    }
  }

  // ---- the hub's steps ----------------------------------------------------------------------

  lemma JoinKeeps<M>(s: State<M>, p: PollId)
    requires Invariant(s)
    ensures Invariant(Join(s, p))
  {
    var t := Join(s, p);
    if t != s {
      var n: nat := |s.conns|;
      assert n !in s.register && (n in Room(s, p) ==> Member(s, n, p));
      forall i, j | 0 <= i < j < |t.register| ensures t.register[i] != t.register[j] {
        assert s.register[i] in s.register;
      }
      forall d: nat | d < |t.conns| ensures ConnPlaced(t, d) && ConnOk(t, d) {
        if d < |s.conns| {
          assert ConnPlaced(s, d) && ConnOk(s, d);
        }
      }
      forall q, d | d in Room(t, q) ensures Member(t, d, q) { assert Member(s, d, q); }
      assert PhaseOk(t) by {
        assert PhaseOk(s);
        assert forall d, q :: Member(s, d, q) ==> Member(t, d, q);
      }
    }
  }

  lemma AdmitKeeps<M>(s: State<M>)
    requires Invariant(s)
    ensures Invariant(Admit(s))
  {
    var t := Admit(s);
    if t != s {
      var c := s.register[0];
      var p := s.conns[c].poll;
      assert ConnPlaced(s, c) && ConnOk(s, c);
      assert forall d :: d in s.register <==> d == c || d in s.register[1..];
      forall d: nat | d < |t.conns| ensures ConnPlaced(t, d) && ConnOk(t, d) {
        assert ConnPlaced(s, d) && ConnOk(s, d);
      }
      forall q, d | d in Room(t, q) ensures Member(t, d, q) { assert d in Room(s, q) ==> Member(s, d, q); }
    }
  }

  /** A taken unregistration of a client that is not in its room. */
  lemma DropKeeps<M>(s: State<M>)
    requires Invariant(s) && s.phase.Selecting? && s.unregister != [] && s.unregister[0] < |s.conns|
    requires s.unregister[0] !in Room(s, s.conns[s.unregister[0]].poll)
    ensures Invariant(s.(unregister := s.unregister[1..]))
  {
    var t, c := s.(unregister := s.unregister[1..]), s.unregister[0];
    assert ConnPlaced(s, c) && ConnOk(s, c);
    assert forall d :: d in s.unregister <==> d == c || d in t.unregister;
    forall q, d | d in Room(t, q) ensures Member(t, d, q) { assert Member(s, d, q); }
    forall d: nat | d < |t.conns| ensures ConnPlaced(t, d) && ConnOk(t, d) { assert ConnPlaced(s, d) && ConnOk(s, d); }
  }

  lemma LeaveRooms<M>(s: State<M>, t: State<M>, c: ClientId)
    requires c < |s.conns| && c in Room(s, s.conns[c].poll) && t.rooms == Leave<M>(s.rooms, s.conns[c].poll, c)
    ensures forall q :: Room(t, q) == Room(s, q) - if q == s.conns[c].poll then {c} else {}
    ensures (forall q :: q in s.rooms ==> s.rooms[q] != {}) ==> forall q :: q in t.rooms ==> t.rooms[q] != {}
  {
  }

  lemma RemoveKeeps<M>(s: State<M>, t: State<M>, c: ClientId)
    requires Invariant(s) && s.phase.Selecting? && s.unregister != [] && s.unregister[0] == c < |s.conns|
    requires c in Room(s, s.conns[c].poll)
    requires t == WithConn(s, c, s.conns[c].(place := Gone, closed := true))
                  .(rooms := Leave<M>(s.rooms, s.conns[c].poll, c), unregister := s.unregister[1..])
    ensures Invariant(t)
  {
    assert ConnPlaced(s, c) && ConnOk(s, c) && Member(s, c, s.conns[c].poll);
    assert forall d :: d in s.unregister <==> d == c || d in t.unregister;
    LeaveRooms(s, t, c);
    forall q, d | d in Room(t, q) ensures Member(t, d, q) { assert Member(s, d, q); }
    forall d: nat | d < |t.conns| ensures ConnPlaced(t, d) { assert ConnPlaced(s, d); }
    forall d: nat | d < |t.conns| ensures ConnOk(t, d) { assert ConnOk(s, d); }
  }

  lemma DismissKeeps<M>(s: State<M>)
    requires Invariant(s)
    ensures Invariant(Dismiss(s))
  {
    if Dismiss(s) != s {
      var c := s.unregister[0];
      if c in Room(s, s.conns[c].poll) {
        assert ConnPlaced(s, c);
        RemoveKeeps(s, Dismiss(s), c);
      } else {
        DropKeeps(s);
      }
    }
  }

  lemma RoomLogPush<M>(taken: seq<Msg<M>>, m: Msg<M>, p: PollId)
    ensures RoomLog(taken + [m], p) == RoomLog(taken, p) + if m.poll == p then [m.payload] else []
  {
    assert (taken + [m])[..|taken|] == taken;
  }

  lemma {:induction false} SelectFrame<M>(s: seq<M>, t: seq<M>, flags: seq<bool>)
    requires |flags| <= |s| && |flags| <= |t| && s[..|flags|] == t[..|flags|]
    ensures Select(s, flags) == Select(t, flags)
    decreases |flags|
  {
    if flags != [] {
      var n := |flags| - 1;
      assert s[..n] == s[..n + 1][..n] && t[..n] == t[..n + 1][..n];
      assert s[n] == s[..n + 1][n] && t[n] == t[..n + 1][n];
      SelectFrame(s, t, flags[..n]);
    }
  }

  lemma SelectPush<M>(s: seq<M>, flags: seq<bool>, b: bool)
    requires |flags| < |s|
    ensures Select(s, flags + [b]) == Select(s, flags) + if b then [s[|flags|]] else []
  {
    assert (flags + [b])[..|flags|] == flags;
  }

  lemma StartKeeps<M>(s: State<M>, order: seq<ClientId>)
    requires Invariant(s)
    ensures Invariant(Start(s, order))
  {
    var t := Start(s, order);
    if t != s {
      var m := s.broadcast[0];
      forall d: nat | d < |t.conns| ensures ConnPlaced(t, d) && ConnOk(t, d) {
        assert ConnPlaced(s, d) && ConnOk(s, d);
        var k := s.conns[d];
        RoomLogPush(s.taken, m, k.poll);
        var log, next := RoomLog(s.taken, k.poll), RoomLog(t.taken, k.poll);
        assert next[k.regAt..][..|k.offered|] == log[k.regAt..][..|k.offered|];
        SelectFrame(log[k.regAt..], next[k.regAt..], k.offered);
        assert d in Room(s, m.poll) <==> d in order;
        assert d in Room(s, m.poll) ==> Member(s, d, m.poll);
      }
      forall q, d | d in Room(t, q) ensures Member(t, d, q) { assert Member(s, d, q); }
    }
  }

  lemma SendKeeps<M>(s: State<M>)
    requires Invariant(s)
    ensures Invariant(Send(s))
  {
    if s.phase.Sending? && s.phase.targets != [] {
      var c := s.phase.targets[0];
      assert Member(s, c, s.phase.msg.poll) && ConnPlaced(s, c) && ConnOk(s, c);
      OfferKeeps(s, c);
    } else if s.phase.Sending? {
      var t := Send(s);
      forall d: nat | d < |t.conns| ensures ConnPlaced(t, d) && ConnOk(t, d) {
        assert ConnPlaced(s, d) && ConnOk(s, d);
      }
      forall q, d | d in Room(t, q) ensures Member(t, d, q) { assert Member(s, d, q); }
    }
  }

  /** The message of the moment is the next one in the log of a target not yet reached. */
  lemma NextInLog<M>(s: State<M>, c: ClientId)
    requires Invariant(s) && !s.phase.Selecting? && c in s.phase.targets
    ensures c < |s.conns|
    ensures var k := s.conns[c]; var log := RoomLog(s.taken, k.poll);
      k.regAt + |k.offered| + 1 == |log| && log[k.regAt + |k.offered|] == s.phase.msg.payload
  {
    assert Member(s, c, s.phase.msg.poll) && ConnOk(s, c);
    assert s.taken == s.taken[..|s.taken| - 1] + [s.phase.msg];
    RoomLogPush(s.taken[..|s.taken| - 1], s.phase.msg, s.conns[c].poll);
  }

  /** The next log entry goes to the client's buffer. */
  lemma EnqueuedOk<M>(s: State<M>, c: ClientId, m: M, phase: Phase<M>)
    requires c < |s.conns| && ConnOk(s, c) && s.conns[c].place.InRoom? && |s.conns[c].buf| < SEND_CAP
    requires !s.conns[c].closed
    requires var k := s.conns[c]; var log := RoomLog(s.taken, k.poll);
      k.regAt + |k.offered| + 1 == |log| && log[k.regAt + |k.offered|] == m
    requires !phase.Selecting? && c !in phase.targets && (s.phase.Evicting? ==> phase == s.phase)
    ensures var k := s.conns[c];
      ConnOk(WithConn(s, c, k.(buf := k.buf + [m], offered := k.offered + [true], enqueued := k.enqueued + [m]))
             .(phase := phase), c)
  {
    var k := s.conns[c];
    SelectPush(RoomLog(s.taken, k.poll)[k.regAt..], k.offered, true);
    assert Flatten(k.wire) + InHand(k) + (k.buf + [m]) == Flatten(k.wire) + InHand(k) + k.buf + [m];
    assert false in k.offered + [true] ==> false in k.offered;
  }

  /** Or it is missed, and the client's eviction is next. */
  lemma MissedOk<M>(s: State<M>, c: ClientId, msg: Msg<M>, rest: seq<ClientId>)
    requires c < |s.conns| && ConnOk(s, c) && s.conns[c].place.InRoom? && c !in rest
    requires var k := s.conns[c]; k.regAt + |k.offered| + 1 == |RoomLog(s.taken, k.poll)|
    ensures var k := s.conns[c];
      ConnOk(WithConn(s, c, k.(offered := k.offered + [false])).(phase := Evicting(msg, c, rest)), c)
  {
    var k := s.conns[c];
    SelectPush(RoomLog(s.taken, k.poll)[k.regAt..], k.offered, false);
  }

  /** The other clients, when target `c` has been dealt with. */
  lemma OthersOk<M>(s: State<M>, t: State<M>, c: ClientId)
    requires Invariant(s) && s.phase.Sending? && s.phase.targets != []
    requires s.phase.targets[0] == c < |s.conns| == |t.conns|
    requires t.conns == s.conns[c := t.conns[c]] && t.rooms == s.rooms && t.register == s.register
    requires t.unregister == s.unregister && t.taken == s.taken && t.panicked == s.panicked
    requires t.phase == Sending(s.phase.msg, s.phase.targets[1..])
             || t.phase == Evicting(s.phase.msg, c, s.phase.targets[1..])
    requires var k, l := s.conns[c], t.conns[c]; l.poll == k.poll && l.place == k.place && l.closed == k.closed
    requires ConnOk(t, c) && Member(s, c, s.phase.msg.poll)
    ensures Invariant(t)
  {
    assert forall d :: d in s.phase.targets <==> d == c || d in s.phase.targets[1..];
    forall d: nat | d < |t.conns| ensures ConnPlaced(t, d) { assert ConnPlaced(s, d); }
    forall d: nat | d < |t.conns| ensures ConnOk(t, d) { if d != c { assert ConnOk(s, d); } }
    forall q, d | d in Room(t, q) ensures Member(t, d, q) { assert Member(s, d, q); }
    forall d | d in s.phase.targets ensures Member(t, d, s.phase.msg.poll) { assert Member(s, d, s.phase.msg.poll); }
  }

  /** One target gets the message or misses it. */
  lemma OfferKeeps<M>(s: State<M>, c: ClientId)
    requires Invariant(s) && s.phase.Sending? && s.phase.targets != [] && s.phase.targets[0] == c
    requires Member(s, c, s.phase.msg.poll) && !s.conns[c].closed
    ensures Invariant(Send(s))
  {
    var rest, k := s.phase.targets[1..], s.conns[c];
    assert ConnOk(s, c) && c !in rest;
    NextInLog(s, c);
    if |k.buf| < SEND_CAP {
      EnqueuedOk(s, c, s.phase.msg.payload, Sending(s.phase.msg, rest));
    } else {
      MissedOk(s, c, s.phase.msg, rest);
    }
    OthersOk(s, Send(s), c);
  }

  lemma EvictKeeps<M>(s: State<M>)
    requires Invariant(s)
    ensures Invariant(Evict(s))
  {
    var t := Evict(s);
    if t != s {
      assert Member(s, s.phase.client, s.phase.msg.poll);
      forall d: nat | d < |t.conns| ensures ConnPlaced(t, d) && ConnOk(t, d) {
        assert ConnPlaced(s, d) && ConnOk(s, d);
      }
      forall q, d | d in Room(t, q) ensures Member(t, d, q) { assert Member(s, d, q); }
      forall d | d in t.phase.targets ensures Member(t, d, t.phase.msg.poll) { assert Member(s, d, t.phase.msg.poll); }
    }
  }

  lemma StopReadingKeeps<M>(s: State<M>, c: ClientId)
    requires Invariant(s)
    ensures Invariant(StopReading(s, c))
  {
    var t := StopReading(s, c);
    if t != s {
      forall d: nat | d < |t.conns| ensures ConnPlaced(t, d) && ConnOk(t, d) {
        assert ConnPlaced(s, d) && ConnOk(s, d);
      }
      forall q, d | d in Room(t, q) ensures Member(t, d, q) { assert Member(s, d, q); }
      assert PhaseOk(t) by {
        assert PhaseOk(s);
        assert forall d, q :: Member(s, d, q) ==> Member(t, d, q);
      }
    }
  }

  lemma PostKeeps<M>(s: State<M>, msg: Msg<M>)
    requires Invariant(s)
    ensures Invariant(Post(s, msg))
  {
    var t := Post(s, msg);
    forall d: nat | d < |t.conns| ensures ConnPlaced(t, d) && ConnOk(t, d) { assert ConnPlaced(s, d) && ConnOk(s, d); }
    forall q, d | d in Room(t, q) ensures Member(t, d, q) { assert Member(s, d, q); }
    assert PhaseOk(t) by {
      assert PhaseOk(s);
      assert forall d, q :: Member(s, d, q) ==> Member(t, d, q);
    }
  }

  lemma StepKeeps<M>(s: State<M>, a: Step<M>)
    requires Invariant(s)
    ensures Invariant(Apply(s, a))
  {
    match a {
      case Connect(p) => JoinKeeps(s, p);
      case TakeRegister => AdmitKeeps(s);
      case TakeUnregister => DismissKeeps(s);
      case TakeBroadcast(order) => StartKeeps(s, order);
      case SendNext => SendKeeps(s);
      case PushEviction => EvictKeeps(s);
      case Enqueue(msg) => PostKeeps(s, msg);
      case ReaderExit(c) => StopReadingKeeps(s, c);
      case _ => PumpStepKeeps(s, a);
    }
  }

  lemma {:induction false} RunKeeps<M>(s: State<M>, run: seq<Step<M>>)
    requires Invariant(s)
    ensures Invariant(Exec(s, run))
    decreases |run|
  {
    if run != [] {
      RunKeeps(s, run[..|run| - 1]);
      StepKeeps(Exec(s, run[..|run| - 1]), run[|run| - 1]);
    }
  }

  ghost predicate Reachable<M(!new)>(s: State<M>) { exists run :: s == Exec(Init(), run) }

  lemma ReachableOk<M(!new)>(s: State<M>)
    requires Reachable(s)
    ensures Invariant(s)
  {
    var run :| s == Exec(Init(), run);
    RunKeeps(Init(), run);
  }

  lemma ReachableStep<M(!new)>(s: State<M>, a: Step<M>)
    requires Reachable(s)
    ensures Reachable(Apply(s, a))
  {
    var run :| s == Exec(Init(), run);
    assert (run + [a])[..|run|] == run;
    assert Exec(Init(), run + [a]) == Apply(s, a);
  }
}
