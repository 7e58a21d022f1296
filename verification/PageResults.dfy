/** What a page ends up showing: the last single-message frame of its socket. */
module PageResults {
  import opened Models
  import H = HubMachine
  import HubInvariants
  import VoteTheorems
  import VoteEvents
  import opened HubOrigin
  import opened Reconnect
  import opened EndToEnd

  /** The message of the last frame that holds just one. */
  function LastSingle(wire: seq<H.Frame<Event>>): Option<Event> {
    if wire == [] then None else
      var f := wire[|wire| - 1];
      if f.Text? && |f.parts| == 1 then Some(f.parts[0]) else LastSingle(wire[..|wire| - 1])
  }

  /** What a hook shows after reading `wire`, when it showed `earlier` before. */
  function Shown(earlier: Option<Event>, wire: seq<H.Frame<Event>>): Option<Event> {
    if LastSingle(wire).Some? then LastSingle(wire) else earlier
  }

  lemma LastSinglePush(wire: seq<H.Frame<Event>>, n: nat)
    requires n < |wire|
    ensures LastSingle(wire[..n + 1]) ==
            if wire[n].Text? && |wire[n].parts| == 1 then Some(wire[n].parts[0]) else LastSingle(wire[..n])
  {
    assert wire[..n + 1][..n] == wire[..n];
  }

  ghost predicate AttachedOk(s: System, w: Browser) {
    w.client.Some? ==>
      && w.client.value < |s.hub.conns|
      && var k := s.hub.conns[w.client.value];
         && w.hook.mounted && w.hook.socket.Live? && w.hook.poll == Some(k.poll)
         && w.read <= |k.wire| && w.hook.results == Shown(w.earlier, k.wire[..w.read])
  }

  ghost predicate Attached(s: System) { forall w :: w in s.browsers ==> AttachedOk(s, w) }

  // ---- sockets only gain frames -------------------------------------------------------------

  ghost predicate WiresGrow(h: H.State<Event>, g: H.State<Event>) {
    && |h.conns| <= |g.conns|
    && forall c: nat :: c < |h.conns| ==> g.conns[c].poll == h.conns[c].poll && h.conns[c].wire <= g.conns[c].wire
  }

  /** One client's frames grow, and its poll stays. */
  lemma OneGrows(h: H.State<Event>, c: nat, l: H.Conn<Event>)
    requires c < |h.conns| && l.poll == h.conns[c].poll && h.conns[c].wire <= l.wire
    ensures WiresGrow(h, H.WithConn(h, c, l))
  {
  }

  lemma PumpGrows(h: H.State<Event>, a: H.Step<Event>)
    requires HubInvariants.IsPumpStep(a)
    ensures WiresGrow(h, H.Apply(h, a))
  {
    HubInvariants.PumpStepIs(h, a);
    if a.c < |h.conns| { OneGrows(h, a.c, HubInvariants.Pumped(h.conns[a.c], a)); }
  }

  lemma HubStepGrows(h: H.State<Event>, a: H.Step<Event>)
    ensures WiresGrow(h, H.Apply(h, a))
  {
    if HubInvariants.IsPumpStep(a) {
      PumpGrows(h, a);
    } else {
      OwnStepGrows(h, a);
    }
  }

  lemma OwnStepGrows(h: H.State<Event>, a: H.Step<Event>)
    requires !HubInvariants.IsPumpStep(a)
    ensures WiresGrow(h, H.Apply(h, a))
  {
    match a {
      case Connect(_) =>
      case TakeRegister => AdmitGrows(h);
      case TakeUnregister => DismissGrows(h);
      case TakeBroadcast(_) =>
      case SendNext => SendGrows(h);
      case PushEviction =>
      case Enqueue(_) =>
      case ReaderExit(_) =>
    }
  }

  lemma AdmitGrows(h: H.State<Event>)
    ensures WiresGrow(h, H.Admit(h))
  {
  }

  lemma DismissGrows(h: H.State<Event>)
    ensures WiresGrow(h, H.Dismiss(h))
  {
  }

  lemma SendGrows(h: H.State<Event>)
    ensures WiresGrow(h, H.Send(h))
  {
  }

  lemma GrownAttached(s: System, t: System)
    requires Attached(s) && t.browsers == s.browsers && WiresGrow(s.hub, t.hub)
    ensures Attached(t)
  {
    forall w | w in t.browsers ensures AttachedOk(t, w) {
      assert AttachedOk(s, w);
      if w.client.Some? {
        var k, l := s.hub.conns[w.client.value], t.hub.conns[w.client.value];
        assert l.wire[..w.read] == k.wire[..w.read];
      }
    }
  }

  lemma OneAttached(s: System, t: System, b: nat, next: Browser)
    requires Attached(s) && b < |s.browsers| && t == s.(browsers := s.browsers[b := next]) && AttachedOk(s, next)
    ensures Attached(t)
  {
    forall w | w in t.browsers ensures AttachedOk(t, w) { assert w != next ==> AttachedOk(s, w); }
  }

  /** A frame of several messages is passed over, a single message of the poll is shown. */
  lemma TextShows(s: System, w: Browser, messages: seq<Event>, next: Browser)
    requires AttachedOk(s, w) && w.client.Some? && w.read < |s.hub.conns[w.client.value].wire|
    requires s.hub.conns[w.client.value].wire[w.read] == H.Text(messages)
    requires forall e :: e in messages ==> e.poll == s.hub.conns[w.client.value].poll
    requires next.hook == Next(w.hook, Frame(messages))
    requires next.client == w.client && next.read == w.read + 1 && next.earlier == w.earlier
    ensures AttachedOk(s, next)
  {
    LastSinglePush(s.hub.conns[w.client.value].wire, w.read);
  }

  lemma PingShows(s: System, w: Browser)
    requires AttachedOk(s, w) && w.client.Some? && w.read < |s.hub.conns[w.client.value].wire|
    requires s.hub.conns[w.client.value].wire[w.read].Ping?
    ensures AttachedOk(s, w.(read := w.read + 1))
  {
    LastSinglePush(s.hub.conns[w.client.value].wire, w.read);
  }

  lemma ReadShows(s: System, b: nat)
    requires Linked(s) && Attached(s) && b < |s.browsers|
    ensures Attached(Receive(s, b))
  {
    var w, t := s.browsers[b], Receive(s, b);
    assert w in s.browsers && AttachedOk(s, w);
    if t != s {
      var c := w.client.value;
      var f := s.hub.conns[c].wire[w.read];
      match f {
        case Text(messages) =>
          forall e | e in messages ensures e.poll == s.hub.conns[c].poll { CarriedWasPublished(s, c, f, e); }
          TextShows(s, w, messages, t.browsers[b]);
        case Ping => PingShows(s, w);
        case Close =>
      }
      OneAttached(s, t, b, t.browsers[b]);
    }
  }

  lemma NotifyShows(s: System, b: nat, signal: Signal)
    requires Attached(s) && b < |s.browsers|
    ensures Attached(Notify(s, b, signal))
  {
    var w, t := s.browsers[b], Notify(s, b, signal);
    assert w in s.browsers && AttachedOk(s, w);
    OneAttached(s, t, b, t.browsers[b]);
  }

  lemma OpenShows(s: System, b: nat, client: H.ClientId)
    requires Attached(s) && b < |s.browsers|
    ensures Attached(Open(s, b, client))
  {
    var t := Open(s, b, client);
    if t != s {
      assert s.browsers[b] in s.browsers;
      assert s.hub.conns[client].wire[..0] == [];
      OneAttached(s, t, b, t.browsers[b]);
    }
  }

  lemma MoveShows(s: System, m: Move)
    requires Linked(s) && Attached(s)
    ensures Attached(Apply(s, m))
  {
    match m {
      case VoteMove(_) => GrownAttached(s, Apply(s, m));
      case Subscribe(arrives) => GrownAttached(s, Forward(s, arrives));
      case HubMove(a) =>
        HubStepGrows(s.hub, a);
        GrownAttached(s, Apply(s, m));
      case OpenPage =>
        var t := Apply(s, m);
        forall w | w in t.browsers ensures AttachedOk(t, w) { assert w in s.browsers ==> AttachedOk(s, w); }
      case Attach(b, c) => if b < |s.browsers| { OpenShows(s, b, c); }
      case ReadFrame(b) => if b < |s.browsers| { ReadShows(s, b); }
      case Signalled(b, signal) => if b < |s.browsers| { NotifyShows(s, b, signal); }
    }
  }

  lemma {:induction false} RunShows(run: seq<Move>)
    ensures Attached(Exec(run))
    decreases |run|
  {
    if run != [] {
      RunShows(run[..|run| - 1]);
      RunKeeps(run[..|run| - 1]);
      MoveShows(Exec(run[..|run| - 1]), run[|run| - 1]);
    }
  }

  // ---- what is shown ------------------------------------------------------------------------

  /** In every run a page whose socket is open shows the last single-message frame it has read from it, or what it
      showed when the socket opened; frames of several messages never show. */
  lemma {:induction false} ShownIsLastSingle(run: seq<Move>, b: nat)
    requires b < |Exec(run).browsers| && Exec(run).browsers[b].client.Some?
    ensures var s := Exec(run); var w := s.browsers[b];
      && w.client.value < |s.hub.conns| && w.read <= |s.hub.conns[w.client.value].wire|
      && w.hook.poll == Some(s.hub.conns[w.client.value].poll)
      && w.hook.results == Shown(w.earlier, s.hub.conns[w.client.value].wire[..w.read])
  {
    RunShows(run);
    assert Exec(run).browsers[b] in Exec(run).browsers && AttachedOk(Exec(run), Exec(run).browsers[b]);
  }

  ghost predicate AllSingle(wire: seq<H.Frame<Event>>) {
    forall f :: f in wire && f.Text? ==> |f.parts| == 1
  }

  lemma {:induction false} SinglesFlatten(wire: seq<H.Frame<Event>>)
    requires AllSingle(wire)
    ensures var flat := HubInvariants.Flatten(wire);
      LastSingle(wire) == if flat == [] then None else Some(flat[|flat| - 1])
    decreases |wire|
  {
    if wire != [] {
      var n := |wire| - 1;
      assert wire == wire[..n] + [wire[n]] && wire[n] in wire;
      assert forall f :: f in wire[..n] ==> f in wire;
      SinglesFlatten(wire[..n]);
    }
  }

  /** The page has read everything from the socket of a client that carried everything. */
  ghost predicate Finished(s: System, b: nat) {
    && b < |s.browsers| && s.browsers[b].client.Some? && Settled(s) && CaughtUp(s, s.browsers[b].client.value)
    && s.browsers[b].read == |s.hub.conns[s.browsers[b].client.value].wire|
  }

  /** The events of `p` in publish order. */
  function Results(s: System, p: PollId): seq<Event> { H.RoomLog(Posts(s.votes.published), p) }

  /** When no two messages were batched, a finished page shows the last event of its poll in publish order, which
      need not be the newest. */
  lemma {:induction false} UnbatchedShowsLast(run: seq<Move>, b: nat)
    requires Finished(Exec(run), b)
    requires AllSingle(Exec(run).hub.conns[Exec(run).browsers[b].client.value].wire)
    ensures var s := Exec(run); var w := s.browsers[b];
      var events := Results(s, s.hub.conns[w.client.value].poll);
      w.hook.results == if events == [] then w.earlier else Some(events[|events| - 1])
  {
    var s := Exec(run);
    var w := s.browsers[b];
    var k := s.hub.conns[w.client.value];
    ShownIsLastSingle(run, b);
    CaughtUpHasAll(run, w.client.value);
    assert k.wire[..w.read] == k.wire;
    SinglesFlatten(k.wire);
  }

  /** The counts a page shows are the stored ones. */
  ghost predicate ShowsExact(s: System, shown: Option<Event>, p: PollId)
    requires p in s.votes.created
  {
    shown.Some? && shown.value.counts == VoteEvents.StoredCounts(s.votes, p)
  }

  /** Once every Cast on a poll has returned without failure and all is delivered and read, the exact result was on
      the page's socket, and the page shows it if and only if the last single-message frame carries it, or, when
      no frame held a single message, the page showed it already when its socket opened. */
  lemma {:induction false} ExactShownIff(run: seq<Move>, b: nat)
    requires Finished(Exec(run), b)
    requires var v, p := Exec(run).votes, Exec(run).hub.conns[Exec(run).browsers[b].client.value].poll;
      && p in v.created && VoteEvents.Clean(v, p) && !VoteEvents.NoneInserted(v, p)
      && forall i: nat :: i < |v.casts| && v.casts[i].poll == p ==> VoteTheorems.Returned(v.casts[i])
    ensures var s := Exec(run); var w := s.browsers[b]; var k := s.hub.conns[w.client.value];
      && (exists e :: e in HubInvariants.Flatten(k.wire) && ShowsExact(s, Some(e), k.poll))
      && (ShowsExact(s, w.hook.results, k.poll) <==>
            ShowsExact(s, LastSingle(k.wire), k.poll)
            || (LastSingle(k.wire).None? && ShowsExact(s, w.earlier, k.poll)))
  {
    var s := Exec(run);
    var w := s.browsers[b];
    var k := s.hub.conns[w.client.value];
    ShownIsLastSingle(run, b);
    assert k.wire[..w.read] == k.wire;
    ExactResultArrives(run, w.client.value);
    var e :| e in HubInvariants.Flatten(k.wire) && e.counts == VoteEvents.StoredCounts(s.votes, k.poll);
    assert ShowsExact(s, Some(e), k.poll);
  }
}
