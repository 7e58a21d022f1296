/** Races of Casts with one token: when exactly the loser gets the store's duplicate-key error. */
module VoteRaces {
  import opened Tallies
  import opened Models
  import opened VoteProtocol
  import opened VoteLinks
  import opened VoteCounts
  import opened VoteUnique
  import opened VoteEvents
  import opened VoteTheorems
  import opened VotePurges
  import opened VoteDrift

  /** Inserts are never taken back from the history, and a purge is not forgotten. */
  ghost predicate HistoryKept(s: State, t: State) {
    && |s.accepted| <= |t.accepted| && s.purged <= t.purged
    && forall k :: 0 <= k < |s.accepted| ==>
         t.accepted[k].vote == s.accepted[k].vote && t.accepted[k].caster == s.accepted[k].caster
  }

  lemma StepKeepsHistory(s: State, a: Step)
    requires Links(s)
    ensures HistoryKept(s, Apply(s, a))
  {
    StepMovesMarks(s, a);
    PurgedGrows(s, a);
  }

  lemma PurgedGrows(s: State, a: Step)
    ensures s.purged <= Apply(s, a).purged
  {
    if a.CastStep? {
      if a.i < |s.casts| { CastLeavesPurged(s, a.i, a.ok); }
    } else if !a.BeginCast? {
      OthersLeave(s, a);
    }
  }

  lemma CastLeavesPurged(s: State, i: nat, ok: bool)
    requires i < |s.casts|
    ensures StepCast(s, i, ok).purged == s.purged
  {
    match s.casts[i].pc {
      case NotVoted => assert StepCast(s, i, ok) == Insert(s, i, ok);
      case Inserted => assert StepCast(s, i, ok) == Increase(s, i, ok);
      case _ => CastQuiet(s, i, ok);
    }
  }

  lemma {:induction false} RunKeepsHistory(s: State, run: seq<Step>)
    requires Reachable(s)
    ensures HistoryKept(s, Exec(s, run))
    decreases |run|
  {
    if run != [] {
      var front := run[..|run| - 1];
      RunKeepsHistory(s, front);
      ReachableRun(s, front);
      ReachableOk(Exec(s, front));
      StepKeepsHistory(Exec(s, front), run[|run| - 1]);
    }
  }

  ghost predicate InsertedFor(s: State, k: nat, p: PollId, t: Token) {
    k < |s.accepted| && s.accepted[k].vote.poll == p && s.accepted[k].vote.token == t
  }

  lemma StoredWasInserted(run: seq<Step>, p: PollId, t: Token)
    requires HasVoted(Exec(Init(), run).votes, p, t)
    ensures exists k :: InsertedFor(Exec(Init(), run), k, p, t)
  {
    var s := Exec(Init(), run);
    InsertsAccounted(run, HeldBy(p, t));
    TallyZero(s.votes, HeldBy(p, t));
    TallyZero(s.accepted, OfVote(HeldBy(p, t)));
    var m :| m in s.accepted && OfVote(HeldBy(p, t))(m);
    var k: nat :| k < |s.accepted| && s.accepted[k] == m;
    assert InsertedFor(s, k, p, t);
  }

  /** While a poll is not purged its keys are taken exactly by the inserts made on it. */
  lemma {:induction false} TakenIff(s: State, p: PollId, t: Token)
    requires Reachable(s) && p !in s.purged
    ensures HasVoted(s.votes, p, t) <==> exists k :: InsertedFor(s, k, p, t)
  {
    var run :| s == Exec(Init(), run);
    ReachableOk(s);
    if k: nat :| InsertedFor(s, k, p, t) {
      assert s.accepted[k].vote in s.votes;
    }
    if HasVoted(s.votes, p, t) { StoredWasInserted(run, p, t); }
  }

  /** Cast `i` passed its duplicate check in `s`, and in `t` another Cast of its token has inserted since. */
  ghost predicate Overtaken(s: State, t: State, i: nat)
    requires i < |t.casts|
  {
    exists k: nat :: |s.accepted| <= k < |t.accepted| && t.accepted[k].caster != i
      && t.accepted[k].vote.poll == t.casts[i].poll && t.accepted[k].vote.token == t.casts[i].token
  }

  /** The insert of a Cast that passed its duplicate check and then waited gets the duplicate-key error if and only
      if another Cast of its token inserted in between, in every run that does not purge the poll; without
      one, the insert succeeds. */
  lemma {:induction false} DuplicateKeyIff(s: State, run: seq<Step>, i: nat)
    requires Reachable(s) && i < |s.casts| && s.casts[i].pc.NotVoted?
    requires !HasVoted(s.votes, s.casts[i].poll, s.casts[i].token)
    requires i < |Exec(s, run).casts| && Exec(s, run).casts[i] == s.casts[i] && s.casts[i].poll !in Exec(s, run).purged
    ensures var t := Exec(s, run);
      && (Insert(t, i, true).casts[i].pc == Rejected(DuplicateKey) <==> Overtaken(s, t, i))
      && (Insert(t, i, true).casts[i].pc.Inserted? <==> !Overtaken(s, t, i))
  {
    var t := Exec(s, run);
    var c := s.casts[i];
    ReachableRun(s, run);
    RunKeepsHistory(s, run);
    TakenIff(s, c.poll, c.token);
    TakenIff(t, c.poll, c.token);
    NotYetInserted(t, i);
    if k: nat :| InsertedFor(t, k, c.poll, c.token) {
      assert InsertedFor(s, k, c.poll, c.token) || k >= |s.accepted|;
    }
    if Overtaken(s, t, i) {
      var k: nat :| |s.accepted| <= k < |t.accepted| && t.accepted[k].caster != i
                    && t.accepted[k].vote.poll == c.poll && t.accepted[k].vote.token == c.token;
      assert InsertedFor(t, k, c.poll, c.token);
    }
  }

  lemma NotYetInserted(t: State, i: nat)
    requires Reachable(t) && i < |t.casts| && t.casts[i].pc.NotVoted?
    ensures forall k: nat :: k < |t.accepted| ==> t.accepted[k].caster != i
  {
    ReachableOk(t);
    forall k: nat | k < |t.accepted| ensures t.accepted[k].caster != i { assert MarkOk(t, k, t.accepted[k]); }
  }
}
