/** Runs with Delete: every insert is stored or was removed, and what a purge does to the one-vote rule. */
module VotePurges {
  import opened Tallies
  import opened Models
  import opened VoteProtocol
  import opened VoteLinks
  import opened VoteCounts
  import opened VoteEvents
  import opened VoteTheorems

  /** The votes one step removes. */
  ghost function RemovedBy(s: State, a: Step): seq<Vote> {
    if a.AdminStep? && a.ok && a.k < |s.admins| && s.admins[a.k].pc.Purging? then
      Keep(s.votes, OnPoll(s.admins[a.k].poll))
    else []
  }

  /** The votes a run has removed, in order. */
  ghost function Removed(run: seq<Step>): seq<Vote> {
    if run == [] then [] else
      var front := run[..|run| - 1];
      Removed(front) + RemovedBy(Exec(Init(), front), run[|run| - 1])
  }

  function OfVote(f: Vote -> bool): Mark -> bool { (m: Mark) => f(m.vote) }

  function Both<T>(f: T -> bool, g: T -> bool): T -> bool { (x: T) => f(x) && g(x) }

  lemma {:induction false} KeepTally<T(!new)>(s: seq<T>, f: T -> bool, g: T -> bool)
    ensures Tally(Keep(s, f), g) == Tally(s, Both(f, g))
    decreases |s|
  {
    if s != [] {
      var n := |s| - 1;
      KeepTally(s[..n], f, g);
      if f(s[n]) { TallyPush(Keep(s[..n], f), s[n], g); }
    }
  }

  lemma PurgeAccounts(s: State, k: nat, ok: bool, f: Vote -> bool)
    requires k < |s.admins| && s.admins[k].pc.Purging?
    ensures Tally(s.votes, f) == Tally(Apply(s, AdminStep(k, ok)).votes, f) + Tally(RemovedBy(s, AdminStep(k, ok)), f)
    ensures Apply(s, AdminStep(k, ok)).accepted == s.accepted
  {
    var p := s.admins[k].poll;
    KeepTally(s.votes, OnPoll(p), f);
    KeepTally(s.votes, OffPoll(p), f);
    TallySplit(s.votes, f, Both(OnPoll(p), f), Both(OffPoll(p), f));
  }

  lemma InsertAccounts(s: State, i: nat, ok: bool, f: Vote -> bool)
    requires i < |s.casts|
    ensures Tally(Insert(s, i, ok).accepted, OfVote(f)) - Tally(s.accepted, OfVote(f))
            == Tally(Insert(s, i, ok).votes, f) - Tally(s.votes, f)
  {
    var c := s.casts[i];
    TallyPush(s.votes, VoteOf(c), f);
    TallyPush(s.accepted, Mark(VoteOf(c), i, s.clock, Pending), OfVote(f));
  }

  lemma IncreaseAccounts(s: State, i: nat, ok: bool, f: Vote -> bool)
    requires i < |s.casts|
    ensures Increase(s, i, ok).votes == s.votes
    ensures Tally(Increase(s, i, ok).accepted, OfVote(f)) == Tally(s.accepted, OfVote(f))
  {
    var c := s.casts[i];
    if c.mark < |s.accepted| {
      TallySet(s.accepted, c.mark, s.accepted[c.mark].(inc := if ok then Applied(s.clock) else Lost), OfVote(f));
    }
  }

  lemma CastAccounts(s: State, i: nat, ok: bool, f: Vote -> bool)
    requires i < |s.casts|
    ensures Tally(StepCast(s, i, ok).accepted, OfVote(f)) - Tally(s.accepted, OfVote(f))
            == Tally(StepCast(s, i, ok).votes, f) - Tally(s.votes, f)
  {
    match s.casts[i].pc {
      case NotVoted => InsertAccounts(s, i, ok, f);
      case Inserted => IncreaseAccounts(s, i, ok, f);
      case _ => assert StepCast(s, i, ok).accepted == s.accepted && StepCast(s, i, ok).votes == s.votes;
    }
  }

  lemma OthersAccount(s: State, a: Step)
    requires !a.CastStep? && !(a.AdminStep? && a.k < |s.admins| && s.admins[a.k].pc.Purging?)
    ensures Apply(s, a).accepted == s.accepted && Apply(s, a).votes == s.votes
  {
    if !a.BeginCast? {
      OthersLeave(s, a);
      VotesLeft(s, a);
    }
  }

  /** In every run, Deletes and rebuilds included, the inserts ever made are the stored votes and the removed
      ones, whatever is counted. */
  lemma {:induction false} InsertsAccounted(run: seq<Step>, f: Vote -> bool)
    ensures Tally(Exec(Init(), run).accepted, OfVote(f)) == Tally(Exec(Init(), run).votes, f) + Tally(Removed(run), f)
    decreases |run|
  {
    if run != [] {
      var front, a := run[..|run| - 1], run[|run| - 1];
      var s := Exec(Init(), front);
      InsertsAccounted(front, f);
      TallyJoin(Removed(front), RemovedBy(s, a), f);
      if a.CastStep? {
        if a.i < |s.casts| { CastAccounts(s, a.i, a.ok, f); }
      } else if a.AdminStep? && a.k < |s.admins| && s.admins[a.k].pc.Purging? {
        PurgeAccounts(s, a.k, a.ok, f);
      } else {
        OthersAccount(s, a);
      }
    }
  }

  lemma {:induction false} TallyJoin<T>(s: seq<T>, t: seq<T>, f: T -> bool)
    ensures Tally(s + t, f) == Tally(s, f) + Tally(t, f)
    decreases |t|
  {
    if t == [] {
      assert s + t == s;
    } else {
      var n := |t| - 1;
      assert s + t == s + t[..n] + [t[n]];
      TallyPush(s + t[..n], t[n], f);
      TallyJoin(s, t[..n], f);
    }
  }

  function PendingBy(p: PollId, t: Token): Mark -> bool {
    (m: Mark) => m.vote.poll == p && m.vote.token == t && m.inc.Pending?
  }

  function LostBy(p: PollId, t: Token): Mark -> bool {
    (m: Mark) => m.vote.poll == p && m.vote.token == t && m.inc.Lost?
  }

  function UnraisedBy(p: PollId, t: Token): Mark -> bool {
    (m: Mark) => m.vote.poll == p && m.vote.token == t && !m.inc.Applied?
  }

  /** A token's inserts on a poll are its removed votes and its stored one, of which there is at most one; so are
      its counter increments together with those pending and lost. It has raised counters more than once exactly
      when its stored and removed votes exceed its pending and lost increments by more than one. */
  lemma {:induction false} TokenIncrements(run: seq<Step>, p: PollId, t: Token)
    ensures var s := Exec(Init(), run);
      && Tally(s.accepted, RaisedBy(p, t)) + Tally(s.accepted, PendingBy(p, t)) + Tally(s.accepted, LostBy(p, t))
         == Tally(s.votes, HeldBy(p, t)) + Tally(Removed(run), HeldBy(p, t))
      && Tally(s.accepted, ByToken(p, t)) == Tally(s.votes, HeldBy(p, t)) + Tally(Removed(run), HeldBy(p, t))
      && Tally(s.votes, HeldBy(p, t)) <= 1
  {
    var s := Exec(Init(), run);
    InsertsAccounted(run, HeldBy(p, t));
    TallySame(s.accepted, ByToken(p, t), OfVote(HeldBy(p, t)));
    TallySplit(s.accepted, OfVote(HeldBy(p, t)), RaisedBy(p, t), UnraisedBy(p, t));
    TallySplit(s.accepted, UnraisedBy(p, t), PendingBy(p, t), LostBy(p, t));
    OneVotePerToken(s, p, t);
  }

  /** Conservation with Delete: counter, Casts between insert and increment and lost increments add up to
      the stored votes and the removed ones. */
  lemma {:induction false} ConservationWithDelete(run: seq<Step>, p: PollId, o: OptionId)
    requires p !in Exec(Init(), run).rebuilt
    ensures var s := Exec(Init(), run);
      Counter(s, p, o) + Tally(s.casts, Between(p, o)) + Tally(s.accepted, LostFor(p, o))
      == VotesFor(s.votes, p, o) + Tally(Removed(run), VoteFor(p, o))
  {
    var s := Exec(Init(), run);
    Conservation(s, p, o);
    InsertsAccounted(run, VoteFor(p, o));
    TallySame(s.accepted, MarkFor(p, o), OfVote(VoteFor(p, o)));
  }
}
