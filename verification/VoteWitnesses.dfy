/** Runs in which the conditions of the theorems fail, and the guarantees with them. */
module VoteWitnesses {
  import opened Tallies
  import opened Models
  import opened VoteProtocol
  import opened VoteCounts
  import opened VoteTheorems
  import opened VoteDrift
  import opened VoteUnique

  const P: PollId := "poll"
  const O: OptionId := "tea"
  const T: Token := "token"

  function TeaPoll(): Poll { Poll("owner", "Drink?", "", [PollOption(O, "Tea")], Active) }

  /** The one poll exists and a Cast on it is about to send its insert. */
  ghost predicate AboutToInsert(s: State, i: nat) {
    i < |s.casts| && s.casts[i].pc.NotVoted? && VoteOf(s.casts[i]) == Vote(P, O, T)
  }

  /** Started Casts come as far as the insert while the poll is active and the token has not voted. */
  lemma ReachInsert(s: State) returns (t: State)
    requires Reachable(s) && P in s.polls && s.polls[P] == TeaPoll() && s.votes == []
    ensures Reachable(t) && AboutToInsert(t, |s.casts|) && |t.casts| == |s.casts| + 1 && t.casts[..|s.casts|] == s.casts
    ensures t == s.(casts := t.casts, clock := t.clock) && t.casts[|s.casts|].options == TeaPoll().options
  {
    var i := |s.casts|;
    var a := StartCast(s, P, O, T);
    ReachableStep(s, BeginCast(P, O, T));
    assert O in Ids(TeaPoll().options) by { assert TeaPoll().options[0] in TeaPoll().options; }
    var b := StepCast(a, i, true);
    ReachableStep(a, CastStep(i, true));
    t := StepCast(b, i, true);
    ReachableStep(b, CastStep(i, true));
  }

  lemma Setup() returns (s: State)
    ensures Reachable(s) && s == Create(Init(), P, TeaPoll())
  {
    assert Exec(Init(), []) == Init();
    ReachableStep(Init(), CreatePoll(P, TeaPoll()));
    s := Create(Init(), P, TeaPoll());
  }

  /** The insert of Cast `i`, with nothing stored for its token. */
  lemma Inserts(s: State, i: nat) returns (t: State)
    requires Reachable(s) && AboutToInsert(s, i) && s.votes == []
    ensures Reachable(t) && t == Insert(s, i, true)
    ensures t.votes == [Vote(P, O, T)] && t.casts == s.casts[i := s.casts[i].(pc := Inserted, mark := |s.accepted|)]
    ensures t.accepted == s.accepted + [Mark(Vote(P, O, T), i, s.clock, Pending)]
  {
    ReachableStep(s, CastStep(i, true));
    t := Insert(s, i, true);
  }

  /** Its increment. */
  lemma Increments(s: State, i: nat) returns (t: State)
    requires Reachable(s) && i < |s.casts| && s.casts[i].pc.Inserted? && VoteOf(s.casts[i]) == Vote(P, O, T)
    requires s.casts[i].mark < |s.accepted|
    ensures Reachable(t) && t == Increase(s, i, true) && t.votes == s.votes && t.purged == s.purged
    ensures HashOf(t.redis, P) == HashOf(s.redis, P)[O := Counter(s, P, O) + 1]
    ensures t.casts == s.casts[i := s.casts[i].(pc := Incremented)]
    ensures t.accepted == s.accepted[s.casts[i].mark := s.accepted[s.casts[i].mark].(inc := Applied(s.clock))]
  {
    ReachableStep(s, CastStep(i, true));
    t := Increase(s, i, true);
  }

  /** A rebuild of an existing hash from its snapshot to its last write. */
  lemma Rebuilds(s: State, r: nat) returns (t: State)
    requires Reachable(s) && r < |s.rebuilds| && s.rebuilds[r].poll == P
    requires s.rebuilds[r].options == [PollOption(O, "Tea")]
    requires s.rebuilds[r].pc.Deleting?
    ensures Reachable(t) && HashOf(t.redis, P) == map[O := Lookup(s.rebuilds[r].snap, O)]
    ensures t.casts == s.casts && t.votes == s.votes && t.accepted == s.accepted && t.polls == s.polls
    ensures t.purged == s.purged
  {
    var a := DeleteHash(s, r, true);
    ReachableStep(s, RebuildStep(r, true));
    t := SetField(a, r, true);
    ReachableStep(a, RebuildStep(r, true));
  }

  /** A rebuild up to its snapshot, which finds one vote. */
  lemma Snapshots(s: State) returns (t: State)
    requires Reachable(s) && s.votes == [Vote(P, O, T)] && s.rebuilds == []
    ensures Reachable(t) && t.casts == s.casts && t.votes == s.votes && t.accepted == s.accepted && t.purged == s.purged
    ensures |t.rebuilds| == 1 && t.rebuilds[0].poll == P && t.rebuilds[0].options == [PollOption(O, "Tea")]
    ensures t.rebuilds[0].pc.Deleting? && Lookup(t.rebuilds[0].snap, O) == 1
  {
    var d := StartRebuild(s, P, [PollOption(O, "Tea")]);
    ReachableStep(s, BeginRebuild(P, [PollOption(O, "Tea")]));
    t := TakeSnapshot(d, 0, true);
    ReachableStep(d, RebuildStep(0, true));
    CountByOptionIs(d.votes, P, O);
    OneVote();
  }

  lemma OneVote()
    ensures VotesFor([Vote(P, O, T)], P, O) == 1
  {
    TallyPush([], Vote(P, O, T), VoteFor(P, O));
    assert [] + [Vote(P, O, T)] == [Vote(P, O, T)];
  }

  /** One Cast inserted, before its increment. */
  lemma OneInserted() returns (s: State)
    ensures Reachable(s) && s.votes == [Vote(P, O, T)] && s.rebuilds == [] && P !in s.purged
    ensures |s.casts| == 1 && s.casts[0].pc.Inserted? && VoteOf(s.casts[0]) == Vote(P, O, T)
    ensures s.casts[0].mark < |s.accepted| == 1 && s.casts[0].options == TeaPoll().options
    ensures s.accepted[0].vote == Vote(P, O, T) && P !in s.redis && s.published == []
  {
    var a := Setup();
    var b := ReachInsert(a);
    s := Inserts(b, 0);
  }

  /** The counter at two, with one vote inserted and its Cast about to read. */
  ghost predicate Doubled(s: State) {
    && Reachable(s) && P !in s.purged && s.votes == [Vote(P, O, T)] && HashOf(s.redis, P) == map[O := 2]
    && |s.casts| == 1 && s.casts[0].pc.Incremented? && s.casts[0].poll == P && s.casts[0].options == TeaPoll().options
    && |s.accepted| == 1 && s.accepted[0].vote.poll == P && s.accepted[0].inc.Applied?
  }

  /** The rebuild over, with the Cast it straddles still before its increment. */
  lemma RebuiltMeanwhile() returns (s: State)
    ensures Reachable(s) && P !in s.purged && s.votes == [Vote(P, O, T)] && HashOf(s.redis, P) == map[O := 1]
    ensures |s.casts| == 1 && s.casts[0].pc.Inserted? && VoteOf(s.casts[0]) == Vote(P, O, T)
    ensures s.casts[0].mark < |s.accepted| == 1 && s.casts[0].options == TeaPoll().options
    ensures s.accepted[0].vote == Vote(P, O, T)
  {
    var c := OneInserted();
    var e := Snapshots(c);
    s := Rebuilds(e, 0);
  }

  lemma Straddles() returns (s: State)
    ensures Doubled(s)
  {
    var f := RebuiltMeanwhile();
    s := Increments(f, 0);
  }

  /** A Cast that straddles a rebuild leaves the counter one too high, with nothing purged, no failure and no
      Cast left between its insert and its increment. */
  lemma StraddleDrifts() returns (s: State)
    ensures Doubled(s) && Tally(s.casts, Between(P, O)) == 0 && Tally(s.accepted, LostFor(P, O)) == 0
    ensures Counter(s, P, O) == 2 && VotesFor(s.votes, P, O) == 1
  {
    s := Straddles();
    TallyZero(s.casts, Between(P, O));
    TallyZero(s.accepted, LostFor(P, O));
    OneVote();
  }

  /** And it stays that high: in every continuation without a rebuild write or a purge, counter + Casts between
      insert and increment + lost increments is one more than the stored votes. */
  lemma StraddleStays() returns (s: State)
    ensures Reachable(s) && Counter(s, P, O) == 2 && VotesFor(s.votes, P, O) == 1
    ensures forall run :: NoWrites(s, run, P, O) && P !in Exec(s, run).purged ==>
              var t := Exec(s, run);
              Counter(t, P, O) + Tally(t.casts, Between(P, O)) + Tally(t.accepted, LostFor(P, O))
              == VotesFor(t.votes, P, O) + 1
  {
    s := StraddleDrifts();
    Conservation(s, P, O);
    forall run | NoWrites(s, run, P, O) && P !in Exec(s, run).purged
      ensures Offset(Exec(s, run), P, O) == 1
      ensures Tally(Exec(s, run).accepted, MarkFor(P, O)) == VotesFor(Exec(s, run).votes, P, O)
    {
      DriftStays(s, run, P, O);
      ReachableRun(s, run);
      Conservation(Exec(s, run), P, O);
    }
  }

  /** So the event of that very Cast claims two votes where one was ever accepted. */
  lemma StraddleOvercounts() returns (s: State, e: Event)
    ensures Reachable(s) && e in s.published && e.poll == P && e.total == 2 && Tally(s.accepted, MarkOn(P)) == 1
  {
    var a := Straddles();
    var b := ReadsCount(a, 2);
    ReachableStep(b, CastStep(0, true));
    s := Publish(b, 0, true);
    e := EventOf(b.casts[0]);
    SumOne(O, 2);
    OneMark(s.accepted);
  }

  /** The read of the one Cast, with `n` counted. */
  lemma ReadsCount(s: State, n: int) returns (t: State)
    requires Reachable(s) && HashOf(s.redis, P) == map[O := n]
    requires |s.casts| == 1 && s.casts[0].pc.Incremented? && s.casts[0].poll == P
    requires s.casts[0].options == TeaPoll().options
    ensures Reachable(t) && t.accepted == s.accepted && t.votes == s.votes && t.published == s.published
    ensures |t.casts| == 1 && t.casts[0].pc.Counted? && t.casts[0].poll == P && t.casts[0].counts == map[O := n]
  {
    ReachableStep(s, CastStep(0, true));
    t := ReadRedis(s, 0, true);
    assert Ids(TeaPoll().options) == {O} by { assert TeaPoll().options[0] in TeaPoll().options; }
  }

  lemma SumOne(o: OptionId, n: int)
    ensures Sum(map[o := n]) == n
  {
    SumRemove(map[o := n], o);
    assert map[o := n] - {o} == map[];
  }

  lemma OneMark(accepted: seq<Mark>)
    requires |accepted| == 1 && accepted[0].vote.poll == P
    ensures Tally(accepted, MarkOn(P)) == 1
  {
    TallyPush([], accepted[0], MarkOn(P));
    assert [] + [accepted[0]] == accepted;
  }

  /** A Cast that read its poll before a Delete purged the votes lets the same token raise the counter again. */
  lemma PurgeAdmitsAgain() returns (s: State)
    ensures Reachable(s) && Counter(s, P, O) == 2 && |s.votes| == 1
    ensures Tally(s.accepted, RaisedBy(P, T)) == 2
  {
    var c := TwoReady();
    var d := Inserts(c, 0);
    var e := Increments(d, 0);
    var f := PurgesAll(e);
    var g := Inserts(f, 1);
    s := Increments(g, 1);
    TwoRaised(s.accepted);
  }

  /** Two Casts of one token about to insert. */
  lemma TwoReady() returns (s: State)
    ensures Reachable(s) && |s.casts| == 2 && AboutToInsert(s, 0) && AboutToInsert(s, 1)
    ensures s.votes == [] && s.accepted == [] && Counter(s, P, O) == 0 && P in s.polls && s.polls[P] == TeaPoll()
  {
    var a := Setup();
    var b := ReachInsert(a);
    s := ReachInsert(b);
    assert s.casts[..1][0] == b.casts[0];
  }

  lemma TwoRaised(accepted: seq<Mark>)
    requires |accepted| == 2 && RaisedBy(P, T)(accepted[0]) && RaisedBy(P, T)(accepted[1])
    ensures Tally(accepted, RaisedBy(P, T)) == 2
  {
    var first, second := accepted[0], accepted[1];
    assert accepted == [first] + [second] && [] + [first] == [first];
    TallyPush([first], second, RaisedBy(P, T));
    TallyPush([], first, RaisedBy(P, T));
  }

  /** The owner's Delete up to its DeleteMany. */
  lemma PurgesAll(s: State) returns (t: State)
    requires Reachable(s) && P in s.polls && s.polls[P] == TeaPoll() && s.votes == [Vote(P, O, T)]
    ensures Reachable(t) && t.votes == [] && t.casts == s.casts && t.accepted == s.accepted && t.redis == s.redis
  {
    var k := |s.admins|;
    var a := StartAdmin(s, DeletePoll, P, "owner");
    ReachableStep(s, BeginAdmin(DeletePoll, P, "owner"));
    var b := WithAdmin(a, k, Purging);
    ReachableStep(a, AdminStep(k, true));
    assert StepAdmin(a, k, true) == b;
    t := Purge(b, k, true);
    ReachableStep(b, AdminStep(k, true));
    assert [Vote(P, O, T)][..0] == [];
    assert Keep([Vote(P, O, T)], OffPoll(P)) == [];
  }

  /** The owner's Close up to its write. */
  lemma Closes(s: State) returns (t: State)
    requires Reachable(s) && P in s.polls && s.polls[P] == TeaPoll()
    ensures Reachable(t) && P in t.polls && t.polls[P].status.Closed?
    ensures t.votes == s.votes && t.casts == s.casts && t.accepted == s.accepted && t.created == s.created
  {
    var k := |s.admins|;
    var a := StartAdmin(s, ClosePoll, P, "owner");
    ReachableStep(s, BeginAdmin(ClosePoll, P, "owner"));
    var b := WithAdmin(a, k, Writing);
    ReachableStep(a, AdminStep(k, true));
    assert StepAdmin(a, k, true) == b;
    t := Write(b, k, true);
    ReachableStep(b, AdminStep(k, true));
  }

  /** A vote lands after Close's write: its Cast had read the poll as active. */
  lemma VoteAfterClose() returns (closed: State, after: State)
    ensures Reachable(closed) && P in closed.polls && closed.polls[P].status.Closed? && closed.votes == []
    ensures after == Exec(closed, [CastStep(0, true)]) && after.votes == [Vote(P, O, T)]
  {
    var a := Setup();
    var b := ReachInsert(a);
    closed := Closes(b);
    after := Inserts(closed, 0);
    assert [CastStep(0, true)][..0] == [];
    assert Exec(closed, [CastStep(0, true)]) == Apply(closed, CastStep(0, true));
  }

  /** The loser of a race between two Casts of one token gets the store's duplicate-key error. */
  lemma RaceLoser() returns (s: State)
    ensures Reachable(s) && |s.casts| == 2 && s.casts[0].pc.Inserted? && s.casts[1].pc == Rejected(DuplicateKey)
    ensures VoteOf(s.casts[0]) == VoteOf(s.casts[1])
  {
    var a := TwoReady();
    var b := Inserts(a, 0);
    assert b.votes[0] in b.votes;
    ReachableStep(b, CastStep(1, true));
    s := Insert(b, 1, true);
  }

  lemma OneIncremented() returns (s: State)
    ensures Reachable(s) && s.votes == [Vote(P, O, T)] && s.published == [] && HashOf(s.redis, P) == map[O := 1]
    ensures |s.casts| == 1 && s.casts[0].pc.Incremented? && s.casts[0].poll == P
    ensures s.casts[0].options == TeaPoll().options
  {
    var a := OneInserted();
    s := Increments(a, 0);
  }

  /** A vote that meets no failure is stored, counted and published as it should be. */
  lemma OneVotePublished() returns (s: State)
    ensures Reachable(s) && s.votes == [Vote(P, O, T)] && s.published == [Event(P, map[O := 1], 1)]
  {
    var b := OneIncremented();
    var c := ReadsCount(b, 1);
    ReachableStep(c, CastStep(0, true));
    s := Publish(c, 0, true);
    SumOne(O, 1);
  }
}
