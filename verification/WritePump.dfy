/** The write pump of one client, with messages as the strings they are: batching, closing, and what a
    reader can recover from a frame. */
module WritePump {
  import opened Models
  import opened HubMachine
  import opened HubInvariants
  import opened HubOrigin

  /** The messages of one frame, joined as the pump writes them. */
  function JoinLines(parts: seq<string>): string {
    if parts == [] then "" else if |parts| == 1 then parts[0]
    else JoinLines(parts[..|parts| - 1]) + "\n" + parts[|parts| - 1]
  }

  /** `t` goes to the end of the last line. */
  function Extend(lines: seq<string>, t: string): (r: seq<string>)
    requires lines != []
    ensures r != []
  {
    lines[..|lines| - 1] + [lines[|lines| - 1] + t]
  }

  /** Split at every newline. */
  function SplitLines(s: string): (r: seq<string>)
    ensures r != []
  {
    if s == "" then [""] else
      var front, c := SplitLines(s[..|s| - 1]), s[|s| - 1];
      if c == '\n' then front + [""] else Extend(front, [c])
  }

  lemma SplitPush(s: string, c: char)
    ensures SplitLines(s + [c]) == if c == '\n' then SplitLines(s) + [""] else Extend(SplitLines(s), [c])
  {
    assert (s + [c])[..|s|] == s;
  }

  lemma ExtendTwice(lines: seq<string>, t: string, u: string)
    requires lines != []
    ensures Extend(Extend(lines, t), u) == Extend(lines, t + u)
    ensures Extend(lines, "") == lines
  {
    var last := lines[|lines| - 1];
    assert last + t + u == last + (t + u) && last + "" == last;
  }

  /** Text without a newline only extends the last line. */
  lemma {:induction false} SplitExtend(s: string, t: string)
    requires '\n' !in t
    ensures SplitLines(s + t) == Extend(SplitLines(s), t)
    decreases |t|
  {
    ExtendTwice(SplitLines(s), "", "");
    if t == "" {
      assert s + t == s;
    } else {
      var front, c := t[..|t| - 1], t[|t| - 1];
      assert s + t == s + front + [c] && t == front + [c];
      SplitExtend(s, front);
      SplitPush(s + front, c);
      ExtendTwice(SplitLines(s), front, [c]);
    }
  }

  /** Splitting a frame at its newlines gives back its messages, when none of them holds one. */
  lemma {:induction false} SplitJoin(parts: seq<string>)
    requires parts != [] && forall m :: m in parts ==> '\n' !in m
    ensures SplitLines(JoinLines(parts)) == parts
    decreases |parts|
  {
    var n := |parts| - 1;
    assert parts == parts[..n] + [parts[n]] && parts[n] in parts;
    if n == 0 {
      SplitExtend("", parts[0]);
      assert "" + parts[0] == parts[0] && Extend([""], parts[0]) == parts;
    } else {
      assert forall m :: m in parts[..n] ==> m in parts;
      SplitJoin(parts[..n]);
      SplitPush(JoinLines(parts[..n]), '\n');
      SplitExtend(JoinLines(parts[..n]) + "\n", parts[n]);
      assert "" + parts[n] == parts[n];
      assert Extend(parts[..n] + [""], parts[n]) == parts;
    }
  }

  datatype WireFrame = Data(text: string) | CloseFrame | PingFrame

  function Encode(f: Frame<string>): WireFrame {
    match f
    case Text(parts) => Data(JoinLines(parts))
    case Close => CloseFrame
    case Ping => PingFrame
  }

  class Client {
    var send: seq<string>
    var closed: bool
    var wire: seq<WireFrame>

    constructor ()
      ensures send == [] && !closed && wire == []
    {
      send, closed, wire := [], false, [];
    }

    /** The channel case of the select loop, when the channel is ready: one batch or the close frame.
        The loop asks for as many messages as were buffered when it started, so it never waits. */
    method OnReady(opens: bool, closes: bool) returns (running: bool)
      requires send != [] || closed
      modifies this`send, this`wire
      ensures running <==> old(send) != [] && opens && closes
      ensures wire == old(wire) + if old(send) == [] then (if opens then [CloseFrame] else [])
                                  else if opens && closes then [Data(JoinLines(old(send)))] else []
      ensures send == if old(send) == [] || opens then [] else old(send)[1..]
    {
      assert wire + [] == wire;
      if send == [] {
        if opens { wire := wire + [CloseFrame]; }
        return false;
      }
      var message := send[0];
      send := send[1..];
      if !opens { return false; }
      var text := message;
      var n := |send|;
      for i := 0 to n
        invariant send == old(send)[i + 1..] && n == |old(send)| - 1 && wire == old(wire)
        invariant text == JoinLines(old(send)[..i + 1])
      {
        assert old(send)[..i + 2][..i + 1] == old(send)[..i + 1];
        text := text + "\n";
        text := text + send[0];
        send := send[1..];
      }
      assert old(send)[..n + 1] == old(send);
      if !closes { return false; }
      wire := wire + [Data(text)];
      running := true;
    }
  }

  /** The flush steps of the machine, `n` of them. */
  function FlushAll<M>(k: Conn<M>, n: nat): Conn<M> {
    if n == 0 then k else PumpFlush(FlushAll(k, n - 1))
  }

  /** The method's batch is the machine's receive, sample, flushes and finish, with nothing in between. */
  lemma BatchIsPumpRun<M>(k: Conn<M>, ok: bool)
    requires k.pump.Waiting? && k.buf != []
    ensures var flushed := FlushAll(PumpSample(PumpReceive(k, true)), |k.buf| - 1);
      PumpFinish(flushed, ok) == if ok then k.(buf := [], wire := k.wire + [Text(k.buf)])
                                 else k.(buf := [], pump := Stopped, lost := k.buf)
  {
    var sampled := PumpSample(PumpReceive(k, true));
    FlushSome(k, |k.buf| - 1);
    assert k.buf[..|k.buf|] == k.buf && k.buf[|k.buf|..] == [];
  }

  lemma {:induction false} FlushSome<M>(k: Conn<M>, n: nat)
    requires k.pump.Waiting? && n < |k.buf|
    ensures FlushAll(PumpSample(PumpReceive(k, true)), n) ==
            k.(buf := k.buf[n + 1..], pump := Flushing(k.buf[..n + 1], |k.buf| - 1 - n))
    decreases n
  {
    if n == 0 {
      assert k.buf[..1] == [k.buf[0]];
    } else {
      FlushSome(k, n - 1);
      assert k.buf[..n + 1] == k.buf[..n] + [k.buf[n]];
    }
  }

  /** The lines of all data frames, in order. */
  function Lines(wire: seq<WireFrame>): seq<string> {
    if wire == [] then [] else
      Lines(wire[..|wire| - 1]) + if wire[|wire| - 1].Data? then SplitLines(wire[|wire| - 1].text) else []
  }

  function EncodeAll(wire: seq<Frame<string>>): seq<WireFrame> {
    seq(|wire|, i requires 0 <= i < |wire| => Encode(wire[i]))
  }

  lemma EncodePush(wire: seq<Frame<string>>, f: Frame<string>)
    ensures EncodeAll(wire + [f]) == EncodeAll(wire) + [Encode(f)]
    ensures Lines(EncodeAll(wire + [f])) ==
      Lines(EncodeAll(wire)) + if f.Text? then SplitLines(JoinLines(f.parts)) else []
  {
    assert EncodeAll(wire + [f]) == EncodeAll(wire) + [Encode(f)];
    assert (EncodeAll(wire) + [Encode(f)])[..|wire|] == EncodeAll(wire);
  }

  lemma {:induction false} LinesAreMessages(wire: seq<Frame<string>>)
    requires forall f :: f in wire && f.Text? ==> f.parts != [] && forall m :: m in f.parts ==> '\n' !in m
    ensures Lines(EncodeAll(wire)) == Flatten(wire)
    decreases |wire|
  {
    if wire != [] {
      var n := |wire| - 1;
      assert wire == wire[..n] + [wire[n]];
      assert wire[n] in wire && forall f :: f in wire[..n] ==> f in wire;
      LinesAreMessages(wire[..n]);
      EncodePush(wire[..n], wire[n]);
      if wire[n].Text? { SplitJoin(wire[n].parts); }
    }
  }

  /** What a client's socket carried, split at newlines, then the batch in hand or lost, then the buffer, is
      exactly what the hub gave the client, when no broadcast message holds a newline. */
  lemma {:induction false} LinesDelivered(run: seq<Step<string>>, c: ClientId)
    requires forall a :: a in run && a.Enqueue? ==> '\n' !in a.msg.payload
    requires c < |Exec(Init(), run).conns|
    ensures var k := Exec(Init(), run).conns[c];
      Lines(EncodeAll(k.wire)) + InHand(k) + k.buf == k.enqueued
  {
    var s := Exec(Init(), run);
    var k := s.conns[c];
    assert Invariant(Init<string>());
    RunKeeps(Init(), run);
    forall f, m | f in k.wire && f.Text? && m in f.parts ensures '\n' !in m {
      WireFrom(s, c, f, m);
      IncomingFrom(run, Msg(k.poll, m));
    }
    assert ConnOk(s, c);
    LinesAreMessages(k.wire);
  }
}
