/** A run from the vote to the page: what the theorems promise does happen. */
module PageWitness {
  import opened Models
  import V = VoteProtocol
  import VoteTheorems
  import VoteWitnesses
  import H = HubMachine
  import HubInvariants
  import opened Reconnect
  import opened EndToEnd

  lemma Then(run: seq<Move>, m: Move)
    ensures Exec(run + [m]) == Apply(Exec(run), m)
  {
    assert (run + [m])[..|run|] == run;
  }

  /** Any reachable state of the votes, with nothing else begun. */
  lemma {:induction false} VotesFirst(votes: seq<V.Step>) returns (run: seq<Move>)
    ensures Exec(run) == Start().(votes := V.Exec(V.Init(), votes))
    decreases |votes|
  {
    run := [];
    if votes != [] {
      var front := VotesFirst(votes[..|votes| - 1]);
      Then(front, VoteMove(votes[|votes| - 1]));
      run := front + [VoteMove(votes[|votes| - 1])];
    }
  }

  /** A page opened on `p`, its socket attached to the one client, which the hub has admitted. */
  ghost predicate Watching(s: System, p: PollId) {
    && |s.browsers| == 1 && s.browsers[0].client == Some(0) && s.browsers[0].read == 0
    && s.browsers[0].hook.mounted && s.browsers[0].hook.socket.Live? && s.browsers[0].hook.poll == Some(p)
    && Idle(s.hub, p) && s.hub.conns[0].buf == []
  }

  ghost predicate Idle(h: H.State<Event>, p: PollId) {
    && |h.conns| == 1 && h.conns[0].poll == p && !h.conns[0].closed && h.rooms == map[p := {0}]
    && h.phase.Selecting? && h.broadcast == [] && h.conns[0].pump.Waiting? && h.conns[0].wire == []
  }

  lemma PageOpens(run: seq<Move>, p: PollId) returns (more: seq<Move>)
    requires Exec(run).browsers == [] && Exec(run).hub == H.Init()
    ensures Watching(Exec(more), p) && Exec(more).votes == Exec(run).votes && Exec(more).fate == Exec(run).fate
  {
    Then(run, OpenPage);
    var page := run + [OpenPage];
    Then(page, Signalled(0, Mount(Some(p))));
    var mounted := page + [Signalled(0, Mount(Some(p)))];
    assert Exec(mounted).browsers[0].hook.socket.Opening?;
    var joined := ClientJoins(mounted, p);
    Then(joined, Attach(0, 0));
    more := joined + [Attach(0, 0)];
  }

  lemma ClientJoins(run: seq<Move>, p: PollId) returns (more: seq<Move>)
    requires Exec(run).hub == H.Init()
    ensures Idle(Exec(more).hub, p) && Exec(more).hub.conns[0].buf == []
    ensures Exec(more) == Exec(run).(hub := Exec(more).hub)
  {
    Then(run, HubMove(H.Connect(p)));
    var connected := run + [HubMove(H.Connect(p))];
    assert Exec(connected).hub == H.Join(H.Init(), p);
    Then(connected, HubMove(H.TakeRegister));
    more := connected + [HubMove(H.TakeRegister)];
    assert Exec(more).hub == H.Admit(H.Join(H.Init(), p));
    assert {} + {0} == {0};
  }

  /** The next event of the poll goes from the channel into the client's buffer. */
  lemma EventDelivered(run: seq<Move>, p: PollId) returns (more: seq<Move>)
    requires var s := Exec(run);
      Watching(s, p) && s.fate == [] && |s.votes.published| == 1 && s.votes.published[0].poll == p
    ensures var s, t := Exec(run), Exec(more);
      && t.votes == s.votes && t.browsers == s.browsers && |t.hub.conns| == 1 && t.hub.conns[0].poll == p
      && t.hub.conns[0].buf == [s.votes.published[0]] && t.hub.conns[0].wire == [] && t.hub.conns[0].pump.Waiting?
  {
    var h, e := Exec(run).hub, Exec(run).votes.published[0];
    Then(run, Subscribe(true));
    var posted := run + [Subscribe(true)];
    assert Exec(posted).hub == H.Post(h, H.Msg(p, e));
    assert H.Lists([0], H.Room(Exec(posted).hub, p));
    Then(posted, HubMove(H.TakeBroadcast([0])));
    var taken := posted + [HubMove(H.TakeBroadcast([0]))];
    assert Exec(taken).hub.phase == H.Sending(H.Msg(p, e), [0]);
    Then(taken, HubMove(H.SendNext));
    more := taken + [HubMove(H.SendNext)];
    assert [] + [e] == [e];
  }

  lemma PumpTurns(run: seq<Move>, a: H.Step<Event>)
    requires HubInvariants.IsPumpStep(a) && a.c == 0 && |Exec(run).hub.conns| == 1
    ensures var s := Exec(run);
      Exec(run + [HubMove(a)]) == s.(hub := H.WithConn(s.hub, 0, HubInvariants.Pumped(s.hub.conns[0], a)))
  {
    Then(run, HubMove(a));
    HubInvariants.PumpStepIs(Exec(run).hub, a);
  }

  /** One message waiting, and nothing written. */
  lemma OneFrame(k: H.Conn<Event>, e: Event)
    requires k.buf == [e] && k.wire == [] && k.pump.Waiting?
    ensures H.PumpFinish(H.PumpSample(H.PumpReceive(k, true)), true) == k.(buf := [], wire := [H.Text([e])])
  {
    assert k.buf[1..] == [] && [] + [H.Text([e])] == [H.Text([e])];
  }

  /** The pump writes it as a frame of its own. */
  lemma FrameWritten(run: seq<Move>, e: Event) returns (more: seq<Move>)
    requires var s := Exec(run);
      |s.hub.conns| == 1 && s.hub.conns[0].buf == [e] && s.hub.conns[0].wire == [] && s.hub.conns[0].pump.Waiting?
    ensures var s, t := Exec(run), Exec(more);
      && t.votes == s.votes && t.browsers == s.browsers && |t.hub.conns| == 1
      && t.hub.conns[0].poll == s.hub.conns[0].poll && t.hub.conns[0].wire == [H.Text([e])]
  {
    OneFrame(Exec(run).hub.conns[0], e);
    PumpTurns(run, H.Receive(0, true));
    var received := run + [HubMove(H.Receive(0, true))];
    PumpTurns(received, H.Sample(0));
    var sampled := received + [HubMove(H.Sample(0))];
    PumpTurns(sampled, H.Finish(0, true));
    more := sampled + [HubMove(H.Finish(0, true))];
  }

  /** A vote on an open page's poll, with nothing lost, is stored, counted, published, and shown on the page. */
  lemma PageShowsVote() returns (run: seq<Move>)
    ensures var s := Exec(run); var e := Event(VoteWitnesses.P, map[VoteWitnesses.O := 1], 1);
      && s.votes.votes == [Vote(VoteWitnesses.P, VoteWitnesses.O, VoteWitnesses.T)] && s.votes.published == [e]
      && |s.browsers| == 1 && s.browsers[0].hook.results == Some(e)
  {
    var p := VoteWitnesses.P;
    var v := VoteWitnesses.OneVotePublished();
    var votes :| v == V.Exec(V.Init(), votes);
    run := VotesFirst(votes);
    run := PageOpens(run, p);
    var e := v.published[0];
    run := EventDelivered(run, p);
    run := FrameWritten(run, e);
    run := FrameShown(run, e);
  }

  lemma FrameShown(run: seq<Move>, e: Event) returns (more: seq<Move>)
    requires var s := Exec(run);
      && |s.browsers| == 1 && s.browsers[0].client == Some(0) && s.browsers[0].read == 0
      && s.browsers[0].hook.mounted && s.browsers[0].hook.socket.Live? && s.browsers[0].hook.poll == Some(e.poll)
      && |s.hub.conns| == 1 && s.hub.conns[0].wire == [H.Text([e])]
    ensures Exec(more).votes == Exec(run).votes
    ensures |Exec(more).browsers| == 1 && Exec(more).browsers[0].hook.results == Some(e)
  {
    Then(run, ReadFrame(0));
    more := run + [ReadFrame(0)];
  }
}
