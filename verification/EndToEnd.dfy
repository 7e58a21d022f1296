/** From the vote to the browser: the vote protocol, the Pub/Sub channel and its subscriber, the hub with its
    sockets, and the hooks, all interleaved. */
module EndToEnd {
  import opened Tallies
  import opened Models
  import V = VoteProtocol
  import VoteTheorems
  import VoteEvents
  import opened VoteUnique
  import H = HubMachine
  import HubInvariants
  import HubTheorems
  import opened HubOrigin
  import opened Reconnect
  import opened RealtimeService

  /** History: an event a hook took, and the poll it was mounted on. */
  datatype Took = Took(poll: PollId, event: Event)

  /** A hook, the client at the other end of its open socket, the frames read from it, all it ever took, and what it
      showed when that socket opened. */
  datatype Browser = Browser(hook: Hook, client: Option<H.ClientId>, read: nat, took: seq<Took>, earlier: Option<Event>)

  /** `fate` tells of each published event, in order, whether it reached the handler or was lost. */
  datatype System = System(votes: V.State, fate: seq<bool>, hub: H.State<Event>, browsers: seq<Browser>)

  datatype Move =
    | VoteMove(a: V.Step)
    | Subscribe(arrives: bool)
    | HubMove(h: H.Step<Event>)
    | OpenPage
    | Attach(b: nat, client: H.ClientId)
    | ReadFrame(b: nat)
    | Signalled(b: nat, signal: Signal)

  ghost function Start(): System { System(V.Init(), [], H.Init(), []) }

  /** The subscriber takes the next event; its handler hands it to the hub and waits while the queue is full. */
  function Forward(s: System, arrives: bool): System {
    if |s.fate| >= |s.votes.published| || (arrives && |s.hub.broadcast| >= H.BROADCAST_CAP) then s
    else
      var e := s.votes.published[|s.fate|];
      s.(fate := s.fate + [arrives], hub := if arrives then H.Post(s.hub, H.Msg(e.poll, e)) else s.hub)
  }

  /** The hook's socket opens, on a client the manager made for the hook's poll. */
  function Open(s: System, b: nat, client: H.ClientId): System
    requires b < |s.browsers|
  {
    var w := s.browsers[b];
    if client >= |s.hub.conns| || !w.hook.mounted || !w.hook.socket.Opening? then s
    else if Some(s.hub.conns[client].poll) != w.hook.poll then s
    else
      var next := w.(hook := Next(w.hook, Opened), client := Some(client), read := 0, earlier := w.hook.results);
      s.(browsers := s.browsers[b := next])
  }

  /** The event a frame makes a hook take. */
  function Takes(h: Hook, messages: seq<Event>): seq<Took> {
    var e := Taken(h.poll, messages);
    if h.mounted && h.socket.Live? && e.Some? then [Took(h.poll.value, e.value)] else []
  }

  function TakeFrame(w: Browser, messages: seq<Event>): Browser {
    w.(hook := Next(w.hook, Frame(messages)), read := w.read + 1, took := w.took + Takes(w.hook, messages))
  }

  /** The next frame of the socket reaches the browser. */
  function Receive(s: System, b: nat): System
    requires b < |s.browsers|
  {
    var w := s.browsers[b];
    if w.client.None? || w.client.value >= |s.hub.conns| || w.read >= |s.hub.conns[w.client.value].wire| then s
    else
      var next := match s.hub.conns[w.client.value].wire[w.read]
        case Text(messages) => TakeFrame(w, messages)
        case Close => w.(hook := Next(w.hook, SocketClosed), client := None)
        case Ping => w.(read := w.read + 1);
      s.(browsers := s.browsers[b := next])
  }

  /** Anything else that happens to a hook; a socket that is no longer live has no client. */
  function Notify(s: System, b: nat, signal: Signal): System
    requires b < |s.browsers|
  {
    var w := s.browsers[b];
    var hook := if signal.Frame? || signal.Opened? then w.hook else Next(w.hook, signal);
    s.(browsers := s.browsers[b := w.(hook := hook, client := if hook.socket.Live? then w.client else None)])
  }

  ghost function Apply(s: System, m: Move): System {
    match m
    case VoteMove(a) => s.(votes := V.Apply(s.votes, a))
    case Subscribe(arrives) => Forward(s, arrives)
    case HubMove(a) => if a.Enqueue? then s else s.(hub := H.Apply(s.hub, a))
    case OpenPage => s.(browsers := s.browsers + [Browser(Fresh(), None, 0, [], None)])
    case Attach(b, c) => if b < |s.browsers| then Open(s, b, c) else s
    case ReadFrame(b) => if b < |s.browsers| then Receive(s, b) else s
    case Signalled(b, signal) => if b < |s.browsers| then Notify(s, b, signal) else s
  }

  ghost function Exec(run: seq<Move>): System {
    if run == [] then Start() else Apply(Exec(run[..|run| - 1]), run[|run| - 1])
  }

  // ---- what every run keeps -----------------------------------------------------------------

  /** The events as the handler hands them to the hub. */
  function Posts(events: seq<Event>): seq<H.Msg<Event>> {
    seq(|events|, i requires 0 <= i < |events| => H.Msg(events[i].poll, events[i]))
  }

  ghost predicate TookOk(s: System, x: Took) { x.event.poll == x.poll && x.event in s.votes.published }

  ghost predicate BrowserOk(s: System, w: Browser) {
    && (forall x :: x in w.took ==> TookOk(s, x))
    && w.hook.results == (if w.took == [] then None else Some(w.took[|w.took| - 1].event))
    && exists signals :: w.hook == Run(Fresh(), signals)
  }

  ghost predicate Linked(s: System) {
    && VoteTheorems.Reachable(s.votes) && HubInvariants.Reachable(s.hub)
    && |s.fate| <= |s.votes.published|
    && Incoming(s.hub) == HubInvariants.Select(Posts(s.votes.published), s.fate)
    && forall w :: w in s.browsers ==> BrowserOk(s, w)
  }

  lemma PublishedGrows(s: V.State, a: V.Step)
    ensures s.published <= V.Apply(s, a).published
  {
    if a.CastStep? {
      if a.i < |s.casts| { CastPublishes(s, a.i, a.ok); }
    } else {
      OnlyCastsPublish(s, a);
    }
  }

  lemma OnlyCastsPublish(s: V.State, a: V.Step)
    requires !a.CastStep?
    ensures V.Apply(s, a).published == s.published
  {
    if !a.BeginCast? { VoteEvents.OthersLeave(s, a); }
  }

  lemma CastPublishes(s: V.State, i: nat, ok: bool)
    requires i < |s.casts|
    ensures s.published <= V.StepCast(s, i, ok).published
  {
    match s.casts[i].pc {
      case NotVoted => InsertIsSilent(s, i, ok);
      case Inserted => IncreaseIsSilent(s, i, ok);
      case Counted => assert V.Publish(s, i, ok).published <= s.published + [V.EventOf(s.casts[i])];
      case _ => assert V.StepCast(s, i, ok).published == s.published;
    }
  }

  lemma InsertIsSilent(s: V.State, i: nat, ok: bool)
    requires i < |s.casts|
    ensures V.Insert(s, i, ok).published == s.published
  {
  }

  lemma IncreaseIsSilent(s: V.State, i: nat, ok: bool)
    requires i < |s.casts|
    ensures V.Increase(s, i, ok).published == s.published
  {
  }

  lemma VoteMoveKeeps(s: System, a: V.Step)
    requires Linked(s)
    ensures Linked(Apply(s, VoteMove(a)))
  {
    var t := Apply(s, VoteMove(a));
    PublishedGrows(s.votes, a);
    VoteTheorems.ReachableStep(s.votes, a);
    HubInvariants.SelectFrame(Posts(s.votes.published), Posts(t.votes.published), s.fate);
    forall w | w in t.browsers ensures BrowserOk(t, w) { assert BrowserOk(s, w); }
  }

  lemma ForwardKeeps(s: System, arrives: bool)
    requires Linked(s)
    ensures Linked(Forward(s, arrives))
  {
    var t := Forward(s, arrives);
    if t != s {
      var e := s.votes.published[|s.fate|];
      HubInvariants.SelectPush(Posts(s.votes.published), s.fate, arrives);
      if arrives {
        IncomingStep(s.hub, H.Enqueue(H.Msg(e.poll, e)));
        HubInvariants.ReachableStep(s.hub, H.Enqueue(H.Msg(e.poll, e)));
      }
      forall w | w in t.browsers ensures BrowserOk(t, w) { assert BrowserOk(s, w); }
    }
  }

  lemma HubMoveKeeps(s: System, a: H.Step<Event>)
    requires Linked(s) && !a.Enqueue?
    ensures Linked(s.(hub := H.Apply(s.hub, a)))
  {
    var t := s.(hub := H.Apply(s.hub, a));
    IncomingStep(s.hub, a);
    HubInvariants.ReachableStep(s.hub, a);
    forall w | w in t.browsers ensures BrowserOk(t, w) { assert BrowserOk(s, w); }
  }

  lemma RunPush(signals: seq<Signal>, a: Signal)
    ensures Run(Fresh(), signals + [a]) == Next(Run(Fresh(), signals), a)
  {
    assert (signals + [a])[..|signals|] == signals;
  }

  /** A signal that is no frame leaves what a hook shows as it is. */
  lemma SignalOk(s: System, w: Browser, a: Signal, next: Browser)
    requires BrowserOk(s, w) && !a.Frame? && next.hook == Next(w.hook, a) && next.took == w.took
    ensures BrowserOk(s, next)
  {
    var signals :| w.hook == Run(Fresh(), signals);
    RunPush(signals, a);
    OnlyFramesShow(w.hook, a);
  }

  lemma OneBrowserKeeps(s: System, t: System, b: nat, next: Browser)
    requires Linked(s) && b < |s.browsers| && t == s.(browsers := s.browsers[b := next]) && BrowserOk(s, next)
    ensures Linked(t)
  {
    forall w | w in t.browsers ensures BrowserOk(t, w) { assert w != next ==> BrowserOk(s, w); }
  }

  /** Every message a socket carried was published. */
  lemma CarriedWasPublished(s: System, c: H.ClientId, f: H.Frame<Event>, e: Event)
    requires Linked(s) && c < |s.hub.conns| && f in s.hub.conns[c].wire && f.Text? && e in f.parts
    ensures e in s.votes.published && e.poll == s.hub.conns[c].poll
  {
    HubInvariants.ReachableOk(s.hub);
    WireFrom(s.hub, c, f, e);
    var m := H.Msg(s.hub.conns[c].poll, e);
    assert m in Incoming(s.hub);
    SelectFrom(Posts(s.votes.published), s.fate, m);
    var i: nat :| i < |Posts(s.votes.published)| && Posts(s.votes.published)[i] == m;
    assert s.votes.published[i] == e;
  }

  lemma FrameOk(s: System, w: Browser, messages: seq<Event>)
    requires BrowserOk(s, w) && forall e :: e in messages ==> e in s.votes.published
    ensures BrowserOk(s, TakeFrame(w, messages))
  {
    var next := TakeFrame(w, messages);
    var signals :| w.hook == Run(Fresh(), signals);
    RunPush(signals, Frame(messages));
    OnlyFramesShow(w.hook, Frame(messages));
    forall x | x in next.took ensures TookOk(s, x) {
      if x !in w.took { assert x.event == messages[0]; }
    }
  }

  lemma ReceiveKeeps(s: System, b: nat)
    requires Linked(s) && b < |s.browsers|
    ensures Linked(Receive(s, b))
  {
    var w, t := s.browsers[b], Receive(s, b);
    if t != s {
      assert w in s.browsers;
      var f := s.hub.conns[w.client.value].wire[w.read];
      match f {
        case Text(messages) =>
          forall e | e in messages ensures e in s.votes.published { CarriedWasPublished(s, w.client.value, f, e); }
          FrameOk(s, w, messages);
        case Close => SignalOk(s, w, SocketClosed, t.browsers[b]);
        case Ping => assert BrowserOk(s, w);
      }
      OneBrowserKeeps(s, t, b, t.browsers[b]);
    }
  }

  lemma NotifyKeeps(s: System, b: nat, signal: Signal)
    requires Linked(s) && b < |s.browsers|
    ensures Linked(Notify(s, b, signal))
  {
    var w, t := s.browsers[b], Notify(s, b, signal);
    assert w in s.browsers && BrowserOk(s, w);
    if !signal.Frame? && !signal.Opened? { SignalOk(s, w, signal, t.browsers[b]); }
    OneBrowserKeeps(s, t, b, t.browsers[b]);
  }

  lemma OpenKeeps(s: System, b: nat, client: H.ClientId)
    requires Linked(s) && b < |s.browsers|
    ensures Linked(Open(s, b, client))
  {
    var t := Open(s, b, client);
    if t != s {
      assert s.browsers[b] in s.browsers;
      SignalOk(s, s.browsers[b], Opened, t.browsers[b]);
      OneBrowserKeeps(s, t, b, t.browsers[b]);
    }
  }

  lemma MoveKeeps(s: System, m: Move)
    requires Linked(s)
    ensures Linked(Apply(s, m))
  {
    match m {
      case VoteMove(a) => VoteMoveKeeps(s, a);
      case Subscribe(arrives) => ForwardKeeps(s, arrives);
      case HubMove(a) => if !a.Enqueue? { HubMoveKeeps(s, a); }
      case OpenPage =>
        assert Fresh() == Run(Fresh(), []);
        forall w | w in Apply(s, m).browsers ensures BrowserOk(Apply(s, m), w) {
          assert w in s.browsers ==> BrowserOk(s, w);
        }
      case Attach(b, c) => if b < |s.browsers| { OpenKeeps(s, b, c); }
      case ReadFrame(b) => if b < |s.browsers| { ReceiveKeeps(s, b); }
      case Signalled(b, signal) => if b < |s.browsers| { NotifyKeeps(s, b, signal); }
    }
  }

  lemma {:induction false} RunKeeps(run: seq<Move>)
    ensures Linked(Exec(run))
    decreases |run|
  {
    if run == [] {
      assert V.Exec(V.Init(), []) == V.Init();
      assert H.Exec(H.Init<Event>(), []) == H.Init();
    } else {
      RunKeeps(run[..|run| - 1]);
      MoveKeeps(Exec(run[..|run| - 1]), run[|run| - 1]);
    }
  }

  // ---- the promises -------------------------------------------------------------------------

  /** Whatever fails, is lost or comes late, an event a hook takes was published, belongs to the poll the
      hook is mounted on, and, unless the poll's hash was rebuilt, totals its own counts and claims no more
      votes than were ever accepted for that poll. */
  lemma {:induction false} TakenNeverOvercounts(run: seq<Move>, b: nat, x: Took)
    requires b < |Exec(run).browsers| && x in Exec(run).browsers[b].took
    ensures x.event in Exec(run).votes.published && x.event.poll == x.poll
    ensures x.poll !in Exec(run).votes.rebuilt ==>
              x.event.total == Sum(x.event.counts) <= Tally(Exec(run).votes.accepted, MarkOn(x.poll))
  {
    RunKeeps(run);
    var s := Exec(run);
    assert s.browsers[b] in s.browsers && BrowserOk(s, s.browsers[b]) && TookOk(s, x);
    if x.poll !in s.votes.rebuilt { VoteTheorems.NoOvercount(s.votes, x.event); }
  }

  /** In every run a page shows the last event it took, with its socket open, closed or gone, and nothing exactly when
      it took none; and its hook is one of the reconnect machine's. */
  lemma {:induction false} ShownWasTaken(run: seq<Move>, b: nat)
    requires b < |Exec(run).browsers|
    ensures var w := Exec(run).browsers[b];
      && HookOk(w.hook)
      && w.hook.results == if w.took == [] then None else Some(w.took[|w.took| - 1].event)
  {
    RunKeeps(run);
    var w := Exec(run).browsers[b];
    assert w in Exec(run).browsers && BrowserOk(Exec(run), w);
    var signals :| w.hook == Run(Fresh(), signals);
    ExactlyOne(signals);
  }

  /** The hub gets the published events that were not lost, in publish order, each once. */
  lemma {:induction false} HubGetsPublished(run: seq<Move>)
    ensures var s := Exec(run);
      |s.fate| <= |s.votes.published| && Incoming(s.hub) == HubInvariants.Select(Posts(s.votes.published), s.fate)
  {
    RunKeeps(run);
  }

  lemma {:induction false} PostsSelect(events: seq<Event>, fate: seq<bool>)
    requires |fate| <= |events|
    ensures HubInvariants.Select(Posts(events), fate) == Posts(HubInvariants.Select(events, fate))
    decreases |fate|
  {
    if fate != [] { PostsSelect(events, fate[..|fate| - 1]); }
  }

  /** In every run of the whole system the hub's handler, wherever it stands among the registered ones, has
      been called for exactly what the hub's queue has taken in. */
  lemma {:induction false} HubHandlerFeedsHub(run: seq<Move>, handlers: seq<HandlerId>, h: HandlerId)
    requires h in handlers && forall i, j :: 0 <= i < j < |handlers| ==> handlers[i] != handlers[j]
    ensures var s := Exec(run);
      && |s.fate| <= |s.votes.published|
      && Posts(CallsOf(Dispatched(Arriving(s.votes.published, s.fate), handlers), h)) == s.hub.taken + s.hub.broadcast
  {
    HubGetsPublished(run);
    var s := Exec(run);
    HandlerGetsArrived(s.votes.published, s.fate, handlers, h);
    PostsSelect(s.votes.published, s.fate);
  }

  /** Everything published has been handed over, nothing was lost, and the hub is between broadcasts. */
  ghost predicate Settled(s: System) {
    && |s.fate| == |s.votes.published| && false !in s.fate
    && s.hub.broadcast == [] && s.hub.phase.Selecting?
  }

  /** A client in its room since before the first broadcast to it, not being removed, with all its
      messages written. */
  ghost predicate CaughtUp(s: System, c: H.ClientId) {
    && c < |s.hub.conns| && c !in s.hub.unregister
    && var k := s.hub.conns[c]; k.place.InRoom? && k.regAt == 0 && k.pump.Waiting? && k.buf == []
  }

  /** The socket of a client that missed nothing carried its room's whole log. */
  lemma CaughtUpHasLog(s: System, c: H.ClientId)
    requires HubInvariants.Reachable(s.hub) && s.hub.phase.Selecting? && CaughtUp(s, c)
    ensures HubInvariants.Flatten(s.hub.conns[c].wire) == H.RoomLog(s.hub.taken, s.hub.conns[c].poll)
  {
    var k := s.hub.conns[c];
    HubTheorems.InOrderDelivery(s.hub, c);
    if HubTheorems.BeforeMiss(k.offered) < |k.offered| { HubTheorems.MissedIsLeaving(s.hub, c); }
    HubTheorems.WritePumpRefines(s.hub, c);
    assert HubInvariants.Flatten(k.wire) + [] + [] == HubInvariants.Flatten(k.wire);
  }

  /** The socket of such a client carried every event of its poll, in publish order. */
  lemma {:induction false} CaughtUpHasAll(run: seq<Move>, c: H.ClientId)
    requires Settled(Exec(run)) && CaughtUp(Exec(run), c)
    ensures var s := Exec(run); var k := s.hub.conns[c];
      HubInvariants.Flatten(k.wire) == H.RoomLog(Posts(s.votes.published), k.poll)
  {
    RunKeeps(run);
    var s := Exec(run);
    SettledTakesAll(s);
    CaughtUpHasLog(s, c);
  }

  lemma SettledTakesAll(s: System)
    requires Linked(s) && Settled(s)
    ensures s.hub.taken == Posts(s.votes.published)
  {
    HubTheorems.SelectRun(Posts(s.votes.published), s.fate, |s.fate|);
    assert s.hub.taken == Incoming(s.hub) && Posts(s.votes.published)[..|s.fate|] == Posts(s.votes.published);
  }

  lemma PostedInLog(events: seq<Event>, e: Event)
    requires e in events
    ensures e in H.RoomLog(Posts(events), e.poll)
  {
    var i: nat :| i < |events| && events[i] == e;
    assert Posts(events)[i] == H.Msg(e.poll, e);
    RoomLogFrom(Posts(events), e.poll, e);
  }

  /** Once every Cast on a poll has returned without failure, the exact stored result is among what such a
      client's socket carried, and it tops every other result of the poll that the socket carried. */
  lemma {:induction false} ExactResultArrives(run: seq<Move>, c: H.ClientId)
    requires Settled(Exec(run)) && CaughtUp(Exec(run), c)
    requires var v, p := Exec(run).votes, Exec(run).hub.conns[c].poll;
      && p in v.created && VoteEvents.Clean(v, p) && !VoteEvents.NoneInserted(v, p)
      && forall i: nat :: i < |v.casts| && v.casts[i].poll == p ==> VoteTheorems.Returned(v.casts[i])
    ensures var s := Exec(run); var wire := HubInvariants.Flatten(s.hub.conns[c].wire);
      exists e :: e in wire && e.counts == VoteEvents.StoredCounts(s.votes, s.hub.conns[c].poll)
                  && forall f :: f in wire ==> Below(f.counts, e.counts) && f.total <= e.total
  {
    RunKeeps(run);
    var s := Exec(run);
    var p := s.hub.conns[c].poll;
    VoteTheorems.SomeEventExact(s.votes, p);
    var e :| VoteTheorems.TopEvent(s.votes, p, e);
    CaughtUpHasAll(run, c);
    PostedInLog(s.votes.published, e);
    var wire := HubInvariants.Flatten(s.hub.conns[c].wire);
    forall f | f in wire ensures f in s.votes.published && f.poll == p {
      RoomLogFrom(Posts(s.votes.published), p, f);
      var i: nat :| i < |Posts(s.votes.published)| && Posts(s.votes.published)[i] == H.Msg(p, f);
    }
    assert e in wire;
  }
}
