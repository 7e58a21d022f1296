/** One stored vote per (poll, token), and what the aggregates add up to. */
module VoteUnique {
  import opened Tallies
  import opened Models
  import opened VoteProtocol
  import opened VoteLinks
  import opened VoteCounts

  ghost predicate Distinct(votes: seq<Vote>) {
    forall i, j :: 0 <= i < j < |votes| && votes[i].poll == votes[j].poll ==> votes[i].token != votes[j].token
  }

  /** Two inserts on one poll that kept all its votes came from different tokens. */
  ghost predicate Apart(s: State, v: Vote, w: Vote) {
    v.poll == w.poll && v.poll !in s.purged ==> v.token != w.token
  }

  ghost predicate Unique(s: State) {
    && Distinct(s.votes)
    && (forall v :: v in s.votes ==> v.poll in s.created && v.option in Ids(s.created[v.poll]))
    && (forall k: nat :: k < |s.accepted| && s.accepted[k].vote.poll !in s.purged ==> s.accepted[k].vote in s.votes)
    && (forall k: nat, l: nat :: k < l < |s.accepted| ==> Apart(s, s.accepted[k].vote, s.accepted[l].vote))
  }

  lemma {:induction false} KeepDistinct(votes: seq<Vote>, f: Vote -> bool)
    requires Distinct(votes)
    ensures Distinct(Keep(votes, f))
    decreases |votes|
  {
    if votes != [] {
      var t, v := votes[..|votes| - 1], votes[|votes| - 1];
      KeepDistinct(t, f);
      forall u | u in Keep(t, f) ensures u.poll == v.poll ==> u.token != v.token {
        var i: nat :| i < |t| && t[i] == u;
      }
    }
  }

  lemma AddedKeepsUnique(s: State, t: State, m: Mark)
    requires Unique(s) && !HasVoted(s.votes, m.vote.poll, m.vote.token)
    requires m.vote.poll in s.created && m.vote.option in Ids(s.created[m.vote.poll])
    requires t.votes == s.votes + [m.vote] && t.accepted == s.accepted + [m]
    requires t.created == s.created && t.purged == s.purged
    ensures Unique(t)
  {
    forall k: nat | k < |s.accepted| && s.accepted[k].vote.poll == m.vote.poll && m.vote.poll !in s.purged
      ensures s.accepted[k].vote.token != m.vote.token
    {
      assert s.accepted[k].vote in s.votes;
    }
  }

  lemma InsertKeepsUnique(s: State, i: nat, ok: bool)
    requires Links(s) && Unique(s) && i < |s.casts| && s.casts[i].pc.NotVoted?
    ensures Unique(Insert(s, i, ok))
  {
    var c, t := s.casts[i], Insert(s, i, ok);
    assert CastOk(s, i, c);
    if |t.accepted| == |s.accepted| {
      StillUnique(s, t);
    } else {
      AddedKeepsUnique(s, t, Mark(VoteOf(c), i, s.clock, Pending));
    }
  }

  lemma IncreaseKeepsUnique(s: State, i: nat, ok: bool)
    requires Links(s) && Unique(s) && i < |s.casts| && s.casts[i].pc.Inserted?
    ensures Unique(Increase(s, i, ok))
  {
    var c, t := s.casts[i], Increase(s, i, ok);
    assert CastOk(s, i, c);
    assert forall k: nat :: k < |t.accepted| ==> t.accepted[k].vote == s.accepted[k].vote;
  }

  lemma PurgeKeepsUnique(s: State, k: nat, ok: bool)
    requires Unique(s) && k < |s.admins|
    ensures Unique(Purge(s, k, ok))
  {
    KeepDistinct(s.votes, OffPoll(s.admins[k].poll));
  }

  lemma StillUnique(s: State, t: State)
    requires Unique(s) && t.votes == s.votes && t.accepted == s.accepted && t.purged == s.purged
    requires forall p :: p in s.created ==> p in t.created && t.created[p] == s.created[p]
    ensures Unique(t)
  {
  }

  lemma RebuildLeavesVotes(s: State, r: nat, ok: bool)
    requires r < |s.rebuilds|
    ensures var t := StepRebuild(s, r, ok);
      t.votes == s.votes && t.accepted == s.accepted && t.purged == s.purged && t.created == s.created
  {
    match s.rebuilds[r].pc {
      case Snapshotting =>
      case Deleting =>
      case Setting(next) =>
      case Ended =>
    }
  }

  lemma {:induction false} StepKeepsUnique(s: State, a: Step)
    requires Links(s) && Unique(s)
    ensures Unique(Apply(s, a))
  {
    if !Loud(s, a) {
      OthersQuiet(s, a);
      StillUnique(s, Apply(s, a));
    } else {
      match a {
        case CastStep(i, ok) =>
          if s.casts[i].pc.NotVoted? { InsertKeepsUnique(s, i, ok); } else { IncreaseKeepsUnique(s, i, ok); }
        case AdminStep(k, ok) => PurgeKeepsUnique(s, k, ok);
        case BeginRebuild(p, options) => StillUnique(s, StartRebuild(s, p, options));
        case RebuildStep(r, ok) =>
          if r < |s.rebuilds| {
            RebuildLeavesVotes(s, r, ok);
            StillUnique(s, StepRebuild(s, r, ok));
          }
      }
    }
  }

  // ---- sums ---------------------------------------------------------------------------------

  function Tokens(votes: seq<Vote>, p: PollId): set<Token> {
    set v | v in votes && v.poll == p :: v.token
  }

  function CountByPoll(votes: seq<Vote>, p: PollId): nat { Tally(votes, OnPoll(p)) }

  /** Under the unique index the votes of a poll are as many as its distinct tokens. */
  lemma {:induction false} TokensCounted(votes: seq<Vote>, p: PollId)
    requires Distinct(votes)
    ensures CountByPoll(votes, p) == |Tokens(votes, p)|
    decreases |votes|
  {
    if votes != [] {
      var t, v := votes[..|votes| - 1], votes[|votes| - 1];
      TokensCounted(t, p);
      assert forall u :: u in votes <==> u in t || u == v;
      if v.poll == p {
        assert Tokens(votes, p) == Tokens(t, p) + {v.token};
        assert v.token !in Tokens(t, p);
      } else {
        assert Tokens(votes, p) == Tokens(t, p);
      }
    }
  }

  /** The counts of the fallback add up to the votes of the poll. */
  lemma MongoSum(votes: seq<Vote>, p: PollId, options: seq<PollOption>)
    requires forall v :: v in votes && v.poll == p ==> v.option in Ids(options)
    ensures Sum(MongoCounts(votes, p, options)) == CountByPoll(votes, p)
  {
    var key := (v: Vote) => v.option;
    var m := MongoCounts(votes, p, options);
    forall o | o in Ids(options) ensures m[o] == Tally(votes, HasKey(OnPoll(p), key, o)) {
      CountByOptionIs(votes, p, o);
      TallySame(votes, VoteFor(p, o), HasKey(OnPoll(p), key, o));
    }
    SumTallies(votes, Ids(options), OnPoll(p), key, m);
    TallySame(votes, KeyIn(OnPoll(p), key, Ids(options)), OnPoll(p));
  }

  function MarkOn(p: PollId): Mark -> bool { (m: Mark) => m.vote.poll == p }

  /** Counts that never exceed the inserts per option never exceed them in total. */
  lemma BoundedSum(accepted: seq<Mark>, p: PollId, counts: Counts)
    requires forall o :: o in counts ==> counts[o] <= Tally(accepted, MarkFor(p, o))
    ensures Sum(counts) <= Tally(accepted, MarkOn(p))
  {
    var key := (m: Mark) => m.vote.option;
    var m := map o | o in counts :: Tally(accepted, MarkFor(p, o)) as int;
    SumLe(counts, m);
    forall o | o in counts ensures m[o] == Tally(accepted, HasKey(MarkOn(p), key, o)) {
      TallySame(accepted, MarkFor(p, o), HasKey(MarkOn(p), key, o));
    }
    SumTallies(accepted, counts.Keys, MarkOn(p), key, m);
    TallyLe(accepted, KeyIn(MarkOn(p), key, counts.Keys), MarkOn(p));
  }
}
