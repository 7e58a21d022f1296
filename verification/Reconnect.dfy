/** The browser hook: connecting, reconnecting and taking results from the socket. */
module Reconnect {
  import opened Models
  import opened Tallies

  const DELAY := 2000
  const MAX_ATTEMPTS := 10
  const MAX_DELAY := 30000

  datatype Socket = Dead | Opening | Live

  datatype Status = Connecting | Connected | Reconnecting | Disconnected

  /** `failures`, `sockets` and `waited` are history: closes since the last open, sockets ever made and
      milliseconds of timers ever set. */
  datatype Hook = Hook(poll: Option<PollId>, mounted: bool, attempts: nat, socket: Socket, timer: bool,
                       status: Status, results: Option<Event>, failures: nat, sockets: nat, waited: nat)

  /** What the component and the browser may do. A frame is the list of messages in it. */
  datatype Signal = Mount(poll: Option<PollId>) | Opened | Frame(messages: seq<Event>) | SocketClosed | TimerFired
                  | Unmount

  function Min(a: nat, b: nat): nat { if a < b then a else b }

  function Fresh(): Hook { Hook(None, false, 0, Dead, false, Connecting, None, 0, 0, 0) }

  function Dialled(h: Hook): Hook {
    if h.poll.None? || !h.mounted then h
    else h.(status := if h.attempts > 0 then Reconnecting else Connecting, socket := Opening, sockets := h.sockets + 1)
  }

  /** A frame of several messages is no JSON text, so only a single message parses; it is taken when it is
      for this poll. */
  function Taken(poll: Option<PollId>, messages: seq<Event>): Option<Event> {
    if |messages| == 1 && poll == Some(messages[0].poll) then Some(messages[0]) else None
  }

  function OnClose(h: Hook): Hook {
    var closed := h.(socket := Dead, failures := h.failures + 1);
    if h.attempts < MAX_ATTEMPTS then
      var n := h.attempts + 1;
      closed.(attempts := n, status := Reconnecting, timer := true, waited := h.waited + Min(DELAY * n, MAX_DELAY))
    else closed.(status := Disconnected)
  }

  /** A signal that cannot happen now changes nothing: callbacks of a hook that is not mounted return at once. */
  function Next(h: Hook, a: Signal): Hook {
    match a
    case Mount(poll) => if h.mounted then h else Dialled(h.(poll := poll, mounted := true))
    case Opened =>
      if h.mounted && h.socket.Opening? then h.(socket := Live, attempts := 0, status := Connected, failures := 0)
      else h
    case Frame(messages) =>
      if h.mounted && h.socket.Live? && Taken(h.poll, messages).Some? then h.(results := Taken(h.poll, messages)) else h
    case SocketClosed => if h.mounted && !h.socket.Dead? then OnClose(h) else h
    case TimerFired => if h.timer then Dialled(h.(timer := false)) else h
    case Unmount => if h.mounted then h.(mounted := false, timer := false, socket := Dead) else h
  }

  function Run(h: Hook, signals: seq<Signal>): Hook {
    if signals == [] then h else Next(Run(h, signals[..|signals| - 1]), signals[|signals| - 1])
  }

  /** The hook itself: refs and state updated by its callbacks. */
  class RealtimePoll {
    var poll: Option<PollId>
    var mounted: bool
    var attempts: nat
    var socket: Socket
    var timer: bool
    var status: Status
    var results: Option<Event>
    ghost var failures: nat
    ghost var sockets: nat
    ghost var waited: nat

    constructor ()
      ensures State() == Fresh()
    {
      poll, mounted, attempts, socket, timer := None, false, 0, Dead, false;
      status, results := Connecting, None;
      failures, sockets, waited := 0, 0, 0;
    }

    ghost function State(): Hook
      reads this
    {
      Hook(poll, mounted, attempts, socket, timer, status, results, failures, sockets, waited)
    }

    method Connect()
      modifies this
      ensures State() == Dialled(old(State()))
      ensures results == old(results) && poll == old(poll) && mounted == old(mounted) && attempts == old(attempts)
      ensures poll.Some? && mounted ==>
                socket.Opening? && status == if attempts > 0 then Status.Reconnecting else Status.Connecting
      ensures poll.None? || !mounted ==> socket == old(socket) && status == old(status)
    {
      if poll.None? || !mounted { return; }
      status := if attempts > 0 then Reconnecting else Connecting;
      socket := Opening;
      sockets := sockets + 1;
    }

    method Effect(pollId: Option<PollId>)
      requires !mounted
      modifies this
      ensures State() == Next(old(State()), Mount(pollId))
      ensures poll == pollId && mounted && results == old(results) && attempts == old(attempts)
      ensures pollId.Some? ==> socket.Opening?
    {
      poll := pollId;
      mounted := true;
      Connect();
    }

    method OnOpen()
      requires socket.Opening?
      modifies this
      ensures State() == Next(old(State()), Opened)
      ensures old(mounted) ==> socket.Live? && attempts == 0 && status.Connected?
      ensures results == old(results) && poll == old(poll) && mounted == old(mounted)
    {
      if !mounted { return; }
      socket := Live;
      attempts := 0;
      failures := 0;
      status := Connected;
    }

    method OnMessage(messages: seq<Event>)
      requires socket.Live?
      modifies this
      ensures State() == Next(old(State()), Frame(messages))
      ensures results == if old(mounted) && |messages| == 1 && old(poll) == Some(messages[0].poll)
                         then Some(messages[0]) else old(results)
      ensures poll == old(poll) && mounted == old(mounted) && socket == old(socket) && attempts == old(attempts)
      ensures status == old(status) && timer == old(timer)
    {
      if !mounted { return; }
      if |messages| == 1 && poll == Some(messages[0].poll) { results := Some(messages[0]); }
    }

    method OnClosed() returns (delay: Option<nat>)
      requires !socket.Dead?
      modifies this
      ensures State() == Next(old(State()), SocketClosed)
      ensures delay ==
        if old(mounted) && old(attempts) < MAX_ATTEMPTS then Some(Min(DELAY * attempts, MAX_DELAY)) else None
      ensures results == old(results) && poll == old(poll) && mounted == old(mounted)
      ensures old(mounted) ==> socket.Dead? && (timer <==> old(timer) || old(attempts) < 10)
      ensures delay == if old(mounted) && old(attempts) < 10 then Some(Min(2000 * attempts, 30000)) else None
      ensures old(mounted) ==> status == if old(attempts) < 10 then Status.Reconnecting else Disconnected
    {
      if !mounted { return None; }
      socket := Dead;
      failures := failures + 1;
      if attempts < MAX_ATTEMPTS {
        attempts := attempts + 1;
        delay := Some(Min(DELAY * attempts, MAX_DELAY));
        status := Reconnecting;
        timer := true;
        waited := waited + delay.value;
      } else {
        status := Disconnected;
        delay := None;
      }
    }

    method OnTimer()
      requires timer
      modifies this
      ensures State() == Next(old(State()), TimerFired)
      ensures results == old(results) && poll == old(poll) && mounted == old(mounted) && !timer
      ensures mounted && poll.Some? ==> socket.Opening?
    {
      timer := false;
      Connect();
    }

    method Cleanup()
      requires mounted
      modifies this
      ensures State() == Next(old(State()), Unmount)
      ensures results == old(results) && !mounted && !timer && socket.Dead? && attempts == old(attempts)
    {
      mounted := false;
      timer := false;
      socket := Dead;
    }
  }

  // ---- what is shown ------------------------------------------------------------------------

  /** Only a frame of a single message for the hook's poll, on a live socket of a mounted hook, changes the results:
      no open, close, timer, mount or unmount does. */
  lemma OnlyFramesShow(h: Hook, a: Signal)
    ensures Next(h, a).results ==
            if a.Frame? && h.mounted && h.socket.Live? && |a.messages| == 1 && h.poll == Some(a.messages[0].poll)
            then Some(a.messages[0]) else h.results
  {
  }

  /** The last such message of a run, if any. */
  function LastShown(h: Hook, signals: seq<Signal>): Option<Event> {
    if signals == [] then h.results else
      var g, a := Run(h, signals[..|signals| - 1]), signals[|signals| - 1];
      if a.Frame? && g.mounted && g.socket.Live? && |a.messages| == 1 && g.poll == Some(a.messages[0].poll)
      then Some(a.messages[0]) else LastShown(h, signals[..|signals| - 1])
  }

  /** In every run a hook shows the last message it took, whatever has become of its socket since. */
  lemma {:induction false} ShowsLast(h: Hook, signals: seq<Signal>)
    ensures Run(h, signals).results == LastShown(h, signals)
    decreases |signals|
  {
    if signals != [] {
      ShowsLast(h, signals[..|signals| - 1]);
      OnlyFramesShow(Run(h, signals[..|signals| - 1]), signals[|signals| - 1]);
    }
  }

  // ---- every reachable hook -----------------------------------------------------------------

  /** While mounted on a poll exactly one of a socket, a pending timer and giving up holds, and the status
      shown agrees; unmounted, neither a socket nor a timer is left. The attempt counter is the closes since
      the last open, up to 10. */
  ghost predicate HookOk(h: Hook) {
    && (h.mounted && h.poll.Some? ==>
          && Bit(!h.socket.Dead?) + Bit(h.timer) + Bit(h.status.Disconnected?) == 1
          && (h.socket.Live? <==> h.status.Connected?)
          && (h.socket.Live? ==> h.attempts == 0)
          && (h.socket.Opening? ==> h.status == if h.attempts > 0 then Reconnecting else Connecting)
          && (h.timer ==> h.attempts > 0 && h.status.Reconnecting?)
          && (h.status.Disconnected? ==> h.attempts == MAX_ATTEMPTS))
    && (!h.mounted || h.poll.None? ==> h.socket.Dead? && !h.timer)
    && h.attempts == Min(h.failures, MAX_ATTEMPTS)
  }

  lemma {:induction false} ExactlyOne(signals: seq<Signal>)
    ensures HookOk(Run(Fresh(), signals))
    decreases |signals|
  {
    if signals != [] {
      ExactlyOne(signals[..|signals| - 1]);
      var h, a := Run(Fresh(), signals[..|signals| - 1]), signals[|signals| - 1];
      match a {
        case Mount(_) =>
        case Opened =>
        case Frame(_) =>
        case SocketClosed =>
        case TimerFired =>
        case Unmount =>
      }
    }
  }

  /** In every run the n-th close in a row waits min(2000 n, 30000) ms for n up to 10, and any later one gives up. */
  lemma ConsecutiveFailure(signals: seq<Signal>)
    requires var h := Run(Fresh(), signals); h.mounted && !h.socket.Dead?
    ensures var h := Run(Fresh(), signals); var n := h.failures + 1; var next := Next(h, SocketClosed);
      if n <= MAX_ATTEMPTS then next.timer && next.waited == h.waited + Min(DELAY * n, MAX_DELAY)
      else next.status.Disconnected? && !next.timer && next.waited == h.waited
  {
    ExactlyOne(signals);
  }

  /** After unmount no socket is made until the next mount. */
  lemma {:induction false} NoSocketUnmounted(h: Hook, signals: seq<Signal>)
    requires HookOk(h) && !h.mounted
    requires forall a :: a in signals ==> !a.Mount?
    ensures Run(h, signals) == h
    decreases |signals|
  {
    if signals != [] {
      assert forall a :: a in signals[..|signals| - 1] ==> a in signals;
      NoSocketUnmounted(h, signals[..|signals| - 1]);
      assert signals[|signals| - 1] in signals;
    }
  }

  // ---- a server that never answers ----------------------------------------------------------

  predicate NeverOpens(signals: seq<Signal>) {
    forall a :: a in signals ==> a.SocketClosed? || a.TimerFired? || a.Frame?
  }

  /** What is left of a run in which nothing opens. */
  function Remaining(h: Hook): nat {
    2 * (MAX_ATTEMPTS - Min(h.attempts, MAX_ATTEMPTS)) + if !h.socket.Dead? then 1 else if h.timer then 2 else 0
  }

  lemma Progress(h: Hook, a: Signal)
    requires HookOk(h) && (a.SocketClosed? || a.TimerFired?) && Next(h, a) != h
    ensures Remaining(Next(h, a)) < Remaining(h)
  {
  }

  /** The first `n` waits together. */
  function Waits(n: nat): nat { if n == 0 then 0 else Waits(n - 1) + Min(DELAY * n, MAX_DELAY) }

  lemma {:induction false} WaitsGrow(n: nat, m: nat)
    requires n <= m
    ensures Waits(n) <= Waits(m)
    decreases m
  {
    if n < m { WaitsGrow(n, m - 1); }
  }

  lemma TenWaits()
    ensures Waits(10) == 110000
  {
    assert Waits(2) == 6000 && Waits(4) == 20000 && Waits(6) == 42000 && Waits(8) == 72000;
  }

  /** A hook with a poll to show that has not given up. */
  ghost predicate Trying(h: Hook) { HookOk(h) && h.mounted && h.poll.Some? && !h.status.Disconnected? }

  /** What became of `start` with nothing opening: sockets, waits and giving up are told by the closes since. */
  ghost predicate Failing(start: Hook, h: Hook) {
    && HookOk(h) && h.mounted && h.poll.Some? && h.failures >= start.failures
    && var closes := h.failures - start.failures;
    && closes <= MAX_ATTEMPTS + 1 - start.attempts && (h.socket.Live? ==> closes == 0)
    && (h.status.Disconnected? <==> closes == MAX_ATTEMPTS + 1 - start.attempts)
    && h.attempts == Min(start.attempts + closes, MAX_ATTEMPTS)
    && h.sockets + Bit(!start.socket.Dead?) == start.sockets + closes + Bit(!h.socket.Dead?)
    && h.waited + Waits(start.attempts) == start.waited + Waits(Min(start.attempts + closes, MAX_ATTEMPTS))
  }

  lemma FailingClose(start: Hook, h: Hook)
    requires Trying(start) && Failing(start, h)
    ensures Failing(start, Next(h, SocketClosed))
  {
    var next := start.attempts + (h.failures - start.failures) + 1;
    assert h.attempts < MAX_ATTEMPTS ==> Waits(next) == Waits(next - 1) + DELAY * next;
  }

  lemma FailingStep(start: Hook, h: Hook, a: Signal)
    requires Trying(start) && Failing(start, h) && (a.SocketClosed? || a.TimerFired? || a.Frame?)
    ensures Failing(start, Next(h, a))
  {
    match a {
      case SocketClosed => FailingClose(start, h);
      case TimerFired =>
      case Frame(_) =>
    }
  }

  lemma {:induction false} FailingRun(start: Hook, signals: seq<Signal>)
    requires Trying(start) && NeverOpens(signals)
    ensures Failing(start, Run(start, signals))
    decreases |signals|
  {
    if signals != [] {
      assert forall a :: a in signals[..|signals| - 1] ==> a in signals;
      FailingRun(start, signals[..|signals| - 1]);
      assert signals[|signals| - 1] in signals;
      FailingStep(start, Run(start, signals[..|signals| - 1]), signals[|signals| - 1]);
    }
  }

  /** Each close or timer of such a run that has an effect uses up the measure, so few of them have. */
  function Effective(h: Hook, signals: seq<Signal>): nat {
    if signals == [] then 0 else
      var g, a := Run(h, signals[..|signals| - 1]), signals[|signals| - 1];
      Effective(h, signals[..|signals| - 1]) + Bit(!a.Frame? && Next(g, a) != g)
  }

  lemma {:induction false} Terminates(start: Hook, signals: seq<Signal>)
    requires Trying(start) && NeverOpens(signals)
    ensures Effective(start, signals) + Remaining(Run(start, signals)) <= Remaining(start)
    decreases |signals|
  {
    if signals != [] {
      assert forall a :: a in signals[..|signals| - 1] ==> a in signals;
      Terminates(start, signals[..|signals| - 1]);
      FailingRun(start, signals[..|signals| - 1]);
      var g, a := Run(start, signals[..|signals| - 1]), signals[|signals| - 1];
      assert a in signals;
      if !a.Frame? && Next(g, a) != g { Progress(g, a); }
    }
  }

  /** From any hook that has not given up, with `k` attempts behind it, and as long as nothing opens: at most
      11 - k sockets, one of them already there unless a timer is pending, and at most 110000 ms less the first
      `k` waits. It is over, disconnected, exactly when all of these have been used. */
  lemma NeverOpensBound(start: Hook, signals: seq<Signal>)
    requires Trying(start) && NeverOpens(signals)
    ensures var h := Run(start, signals); var sockets := 11 - start.attempts - Bit(!start.socket.Dead?);
      && h.sockets - start.sockets <= sockets && h.waited - start.waited <= 110000 - Waits(start.attempts)
      && (h.status.Disconnected? <==> h.sockets - start.sockets == sockets && h.socket.Dead?)
      && (h.status.Disconnected? ==> h.waited - start.waited == 110000 - Waits(start.attempts))
      && (h.status.Disconnected? <==> h.socket.Dead? && !h.timer)
    ensures Effective(start, signals) <= Remaining(start)
  {
    FailingRun(start, signals);
    Terminates(start, signals);
    TenWaits();
    var h := Run(start, signals);
    WaitsGrow(Min(start.attempts + (h.failures - start.failures), MAX_ATTEMPTS), 10);
  }

  /** So from a zero attempt count, reached by a first mount or by any earlier open, it is the socket already
      there and 10 more, 110000 ms, and at most 21 closes and timers. */
  lemma ZeroAttemptsBound(start: Hook, signals: seq<Signal>)
    requires Trying(start) && start.attempts == 0 && NeverOpens(signals)
    ensures var h := Run(start, signals);
      && !start.socket.Dead? && h.sockets - start.sockets <= 10 && h.waited - start.waited <= 110000
      && (h.status.Disconnected? <==> h.sockets - start.sockets == 10 && h.socket.Dead?)
      && (h.status.Disconnected? ==> h.waited - start.waited == 110000)
    ensures Effective(start, signals) <= 21
  {
    NeverOpensBound(start, signals);
  }

  /** After a first mount that is 11 sockets in all. */
  lemma FirstMountBound(poll: PollId, signals: seq<Signal>)
    requires NeverOpens(signals)
    ensures var h := Run(Next(Fresh(), Mount(Some(poll))), signals);
      && h.sockets <= 11 && h.waited <= 110000
      && (h.status.Disconnected? <==> h.sockets == 11 && h.socket.Dead?)
      && (h.status.Disconnected? ==> h.waited == 110000)
  {
    ZeroAttemptsBound(Next(Fresh(), Mount(Some(poll))), signals);
  }
}
