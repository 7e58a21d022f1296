/** The WebSocket hub and the pumps of its clients as a state machine.

    The hub goroutine alone touches the rooms and closes the send channels; `ServeWS`, the read pumps, the
    write pumps and the subscriber run beside it. A run is any sequence of steps, so it covers every
    order in which `select` may take the three queues. */
module HubMachine {
  import opened Models

  const QUEUE_CAP := 256
  const SEND_CAP := 256
  const BROADCAST_CAP := 1024

  type ClientId = nat

  datatype Msg<M> = Msg(poll: PollId, payload: M)

  /** `Queued` until the hub takes the registration, `InRoom` until it takes an unregistration. */
  datatype Place = Queued | InRoom | Gone

  datatype Frame<M> = Text(parts: seq<M>) | Close | Ping

  /** Where a write pump is: waiting, with a message just written, flushing `left` more, or returned. */
  datatype Pump<M> = Waiting | Opened(first: M) | Flushing(parts: seq<M>, left: nat) | Stopped

  /** One client: its send channel, its pumps, what its socket carried, and history since its registration:
      the messages enqueued, and for every broadcast of its room whether it was enqueued or missed. */
  datatype Conn<M> = Conn(poll: PollId, place: Place, buf: seq<M>, closed: bool, reading: bool,
                          pump: Pump<M>, wire: seq<Frame<M>>, lost: seq<M>,
                          regAt: nat, offered: seq<bool>, enqueued: seq<M>)

  /** The hub between two receives, in the middle of a broadcast, or blocked on its own unregister queue. */
  datatype Phase<M> = Selecting | Sending(msg: Msg<M>, targets: seq<ClientId>)
                    | Evicting(msg: Msg<M>, client: ClientId, targets: seq<ClientId>)

  datatype State<M> = State(
    conns: seq<Conn<M>>,
    rooms: map<PollId, set<ClientId>>,
    register: seq<ClientId>,
    unregister: seq<ClientId>,
    broadcast: seq<Msg<M>>,
    phase: Phase<M>,
    panicked: bool,          // a send on or a close of a closed channel
    taken: seq<Msg<M>>)      // history: the broadcasts processed

  function Init<M>(): State<M> { State([], map[], [], [], [], Selecting, false, []) }

  datatype Step<M> =
    | Connect(poll: PollId)
    | TakeRegister
    | TakeUnregister
    | TakeBroadcast(order: seq<ClientId>)
    | SendNext
    | PushEviction
    | Enqueue(msg: Msg<M>)
    | ReaderExit(c: ClientId)
    | Receive(c: ClientId, ok: bool)
    | Sample(c: ClientId)
    | Flush(c: ClientId)
    | Finish(c: ClientId, ok: bool)
    | SendPing(c: ClientId, ok: bool)

  function Room<M>(s: State<M>, p: PollId): set<ClientId> {
    if p in s.rooms then s.rooms[p] else {}
  }

  /** The payloads of the broadcasts to `p`, in order. */
  function RoomLog<M>(taken: seq<Msg<M>>, p: PollId): seq<M> {
    if taken == [] then [] else
      var front := RoomLog(taken[..|taken| - 1], p);
      var last := taken[|taken| - 1];
      if last.poll == p then front + [last.payload] else front
  }

  function WithConn<M>(s: State<M>, c: ClientId, conn: Conn<M>): State<M>
    requires c < |s.conns|
  {
    s.(conns := s.conns[c := conn])
  }

  /** ServeWS: a fresh client, registered once, whose pumps start after that. */
  function Join<M>(s: State<M>, p: PollId): State<M> {
    if |s.register| >= QUEUE_CAP then s
    else s.(conns := s.conns + [Conn(p, Queued, [], false, true, Waiting, [], [], 0, [], [])],
            register := s.register + [|s.conns|])
  }

  function Admit<M>(s: State<M>): State<M> {
    if !s.phase.Selecting? || s.register == [] || s.register[0] >= |s.conns| then s
    else
      var c := s.register[0];
      var p := s.conns[c].poll;
      WithConn(s, c, s.conns[c].(place := InRoom, regAt := |RoomLog(s.taken, p)|))
      .(rooms := s.rooms[p := Room(s, p) + {c}], register := s.register[1..])
  }

  function Leave<M>(rooms: map<PollId, set<ClientId>>, p: PollId, c: ClientId): map<PollId, set<ClientId>>
    requires p in rooms
  {
    if rooms[p] - {c} == {} then rooms - {p} else rooms[p := rooms[p] - {c}]
  }

  function Dismiss<M>(s: State<M>): State<M> {
    if !s.phase.Selecting? || s.unregister == [] || s.unregister[0] >= |s.conns| then s
    else
      var c := s.unregister[0];
      var conn := s.conns[c];
      var t := s.(unregister := s.unregister[1..]);
      if c !in Room(s, conn.poll) then t
      else
        WithConn(t, c, conn.(place := Gone, closed := true))
        .(rooms := Leave<M>(s.rooms, conn.poll, c), panicked := s.panicked || conn.closed)
  }

  predicate Lists(order: seq<ClientId>, room: set<ClientId>) {
    && (forall i, j :: 0 <= i < j < |order| ==> order[i] != order[j])
    && (forall c :: c in order ==> c in room) && (forall c :: c in room ==> c in order)
  }

  /** The targets are collected in some order, before any send. */
  function Start<M>(s: State<M>, order: seq<ClientId>): State<M> {
    if !s.phase.Selecting? || s.broadcast == [] || !Lists(order, Room(s, s.broadcast[0].poll)) then s
    else s.(broadcast := s.broadcast[1..], taken := s.taken + [s.broadcast[0]], phase := Sending(s.broadcast[0], order))
  }

  /** The non-blocking send, or the decision to evict when the buffer is full. */
  function Send<M>(s: State<M>): State<M> {
    if !s.phase.Sending? then s
    else if s.phase.targets == [] then s.(phase := Selecting)
    else
      var c, rest := s.phase.targets[0], s.phase.targets[1..];
      if c >= |s.conns| then s
      else
        var conn := s.conns[c];
        if conn.closed then s.(panicked := true)
        else if |conn.buf| < SEND_CAP then
          WithConn(s, c, conn.(buf := conn.buf + [s.phase.msg.payload], offered := conn.offered + [true],
                               enqueued := conn.enqueued + [s.phase.msg.payload]))
          .(phase := Sending(s.phase.msg, rest))
        else WithConn(s, c, conn.(offered := conn.offered + [false])).(phase := Evicting(s.phase.msg, c, rest))
  }

  /** The blocking send on the hub's own queue. */
  function Evict<M>(s: State<M>): State<M> {
    if !s.phase.Evicting? || |s.unregister| >= QUEUE_CAP then s
    else s.(unregister := s.unregister + [s.phase.client], phase := Sending(s.phase.msg, s.phase.targets))
  }

  function Post<M>(s: State<M>, msg: Msg<M>): State<M> {
    if |s.broadcast| >= BROADCAST_CAP then s else s.(broadcast := s.broadcast + [msg])
  }

  /** The read pump ends and unregisters its client, once. */
  function StopReading<M>(s: State<M>, c: ClientId): State<M> {
    if c >= |s.conns| || !s.conns[c].reading || |s.unregister| >= QUEUE_CAP then s
    else WithConn(s, c, s.conns[c].(reading := false)).(unregister := s.unregister + [c])
  }

  // ---- the write pump: one client's own steps -----------------------------------------------

  /** A message is received and a writer opened; a closed and drained channel means the close frame. */
  function PumpReceive<M>(k: Conn<M>, ok: bool): Conn<M> {
    if !k.pump.Waiting? then k
    else if k.buf == [] then
      if k.closed then k.(pump := Stopped, wire := k.wire + if ok then [Close] else []) else k
    else if ok then k.(buf := k.buf[1..], pump := Opened(k.buf[0]))
    else k.(buf := k.buf[1..], pump := Stopped, lost := [k.buf[0]])
  }

  /** `n := len(c.send)`. */
  function PumpSample<M>(k: Conn<M>): Conn<M> {
    if k.pump.Opened? then k.(pump := Flushing([k.pump.first], |k.buf|)) else k
  }

  function PumpFlush<M>(k: Conn<M>): Conn<M> {
    if !k.pump.Flushing? || k.pump.left == 0 || k.buf == [] then k
    else k.(buf := k.buf[1..], pump := Flushing(k.pump.parts + [k.buf[0]], k.pump.left - 1))
  }

  function PumpFinish<M>(k: Conn<M>, ok: bool): Conn<M> {
    if !k.pump.Flushing? || k.pump.left > 0 then k
    else if ok then k.(pump := Waiting, wire := k.wire + [Text(k.pump.parts)])
    else k.(pump := Stopped, lost := k.pump.parts)
  }

  function PumpPing<M>(k: Conn<M>, ok: bool): Conn<M> {
    if !k.pump.Waiting? then k
    else if ok then k.(wire := k.wire + [Ping])
    else k.(pump := Stopped)
  }

  function Apply<M>(s: State<M>, a: Step<M>): State<M> {
    match a
    case Connect(p) => Join(s, p)
    case TakeRegister => Admit(s)
    case TakeUnregister => Dismiss(s)
    case TakeBroadcast(order) => Start(s, order)
    case SendNext => Send(s)
    case PushEviction => Evict(s)
    case Enqueue(msg) => Post(s, msg)
    case ReaderExit(c) => StopReading(s, c)
    case Receive(c, ok) => if c < |s.conns| then WithConn(s, c, PumpReceive(s.conns[c], ok)) else s
    case Sample(c) => if c < |s.conns| then WithConn(s, c, PumpSample(s.conns[c])) else s
    case Flush(c) => if c < |s.conns| then WithConn(s, c, PumpFlush(s.conns[c])) else s
    case Finish(c, ok) => if c < |s.conns| then WithConn(s, c, PumpFinish(s.conns[c], ok)) else s
    case SendPing(c, ok) => if c < |s.conns| then WithConn(s, c, PumpPing(s.conns[c], ok)) else s
  }

  function Exec<M>(s: State<M>, run: seq<Step<M>>): State<M> {
    if run == [] then s else Apply(Exec(s, run[..|run| - 1]), run[|run| - 1])
  }
}
