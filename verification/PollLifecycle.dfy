/** Polls under any interleaving of Create, Update, Close, Delete and Cast. */
module PollLifecycle {
  import opened Tallies
  import opened Models
  import opened VoteProtocol
  import opened VoteLinks
  import opened VoteCounts
  import opened VoteUnique
  import opened VoteEvents
  import opened VoteTheorems

  ghost predicate Votable(s: State, p: PollId) { p in s.polls && s.polls[p].status.Active? }

  /** Created once, and now closed or deleted. */
  ghost predicate Retired(s: State, p: PollId) { p in s.created && !Votable(s, p) }

  ghost predicate Gone(s: State, p: PollId) { p in s.created && p !in s.polls }

  /** `after` is `before` with other texts, and perhaps closed. */
  predicate SameButTexts(before: Poll, after: Poll) {
    && after.options == before.options && after.creator == before.creator
    && (before.status.Closed? ==> after.status.Closed?)
  }

  /** What a step may do to the poll documents. */
  ghost predicate PollsMove(s: State, t: State) {
    && s.created.Keys <= t.created.Keys
    && forall p :: p in s.created ==>
         p in t.polls ==> p in s.polls && SameButTexts(s.polls[p], t.polls[p])
  }

  lemma {:induction false} StepMovesPolls(s: State, a: Step)
    ensures PollsMove(s, Apply(s, a))
  {
    match a {
      case CreatePoll(id, poll) =>
      case BeginCast(_, _, _) =>
      case CastStep(i, ok) => if i < |s.casts| { CastLeavesPolls(s, i, ok); }
      case BeginResults(_) =>
      case ResultsStep(j, ok) => if j < |s.readers| { ReaderLeavesPolls(s, j, ok); }
      case BeginAdmin(_, _, _) =>
      case AdminStep(k, ok) => if k < |s.admins| { AdminMovesPolls(s, k, ok); }
      case BeginRebuild(_, _) =>
      case RebuildStep(r, ok) => if r < |s.rebuilds| { RebuildLeavesPolls(s, r, ok); }
    }
  }

  lemma CastLeavesPolls(s: State, i: nat, ok: bool)
    requires i < |s.casts|
    ensures StepCast(s, i, ok).polls == s.polls && StepCast(s, i, ok).created == s.created
    ensures StepCast(s, i, ok).admins == s.admins
  {
    match s.casts[i].pc {
      case Started =>
      case PollRead =>
      case NotVoted =>
      case Inserted =>
      case Incremented =>
      case Fallback =>
      case Counted =>
      case Accepted =>
      case Rejected(_) =>
    }
  }

  lemma ReaderLeavesPolls(s: State, j: nat, ok: bool)
    requires j < |s.readers|
    ensures StepReader(s, j, ok).polls == s.polls && StepReader(s, j, ok).created == s.created
    ensures StepReader(s, j, ok).admins == s.admins
  {
    match s.readers[j].pc {
      case Asked =>
      case Found =>
      case Missed =>
      case Answered =>
      case Failed =>
    }
  }

  lemma RebuildLeavesPolls(s: State, r: nat, ok: bool)
    requires r < |s.rebuilds|
    ensures StepRebuild(s, r, ok).polls == s.polls && StepRebuild(s, r, ok).created == s.created
    ensures StepRebuild(s, r, ok).admins == s.admins
  {
    match s.rebuilds[r].pc {
      case Snapshotting =>
      case Deleting =>
      case Setting(_) =>
      case Ended =>
    }
  }

  lemma AdminMovesPolls(s: State, k: nat, ok: bool)
    requires k < |s.admins|
    ensures PollsMove(s, StepAdmin(s, k, ok))
    ensures !(s.admins[k].pc.Writing? && ok) ==> StepAdmin(s, k, ok).polls == s.polls
  {
    match s.admins[k].pc {
      case Looking =>
      case Purging =>
      case Writing =>
      case ReadingBack =>
      case Done =>
      case Refused =>
    }
  }

  /** A closed poll never becomes active and a deleted poll never reappears. */
  lemma {:induction false} StatusAbsorbing(s: State, run: seq<Step>, p: PollId)
    ensures Retired(s, p) ==> Retired(Exec(s, run), p)
    ensures Gone(s, p) ==> Gone(Exec(s, run), p)
    decreases |run|
  {
    if run != [] {
      StatusAbsorbing(s, run[..|run| - 1], p);
      StepMovesPolls(Exec(s, run[..|run| - 1]), run[|run| - 1]);
    }
  }

  // ---- late votes ---------------------------------------------------------------------------

  function MayInsertOn(p: PollId): Cast -> bool { (c: Cast) => c.poll == p && MayInsert(c) }

  /** The stored votes of `p` and the Casts that have read it as active and may still add one. */
  ghost function Exposure(s: State, p: PollId): nat {
    CountByPoll(s.votes, p) + Tally(s.casts, MayInsertOn(p))
  }

  /** What a Cast step does to a retired poll: the Cast moves, and adds at most its own vote. */
  ghost predicate CastMove(s: State, t: State, i: nat, p: PollId) {
    && i < |s.casts| == |t.casts| && t.casts == s.casts[i := t.casts[i]]
    && t.casts[i].poll == s.casts[i].poll && t.casts[i].token == s.casts[i].token
    && (MayInsert(t.casts[i]) && s.casts[i].poll == p ==> MayInsert(s.casts[i]))
    && (t.votes == s.votes
        || (t.votes == s.votes + [VoteOf(s.casts[i])] && MayInsert(s.casts[i]) && !MayInsert(t.casts[i])))
  }

  lemma CastStepMoves(s: State, i: nat, ok: bool, p: PollId)
    requires Retired(s, p) && i < |s.casts|
    ensures StepCast(s, i, ok) == s || CastMove(s, StepCast(s, i, ok), i, p)
  {
    match s.casts[i].pc {
      case Started => EarlyStepMoves(s, i, ok, p);
      case PollRead => EarlyStepMoves(s, i, ok, p);
      case NotVoted => InsertMoves(s, i, ok, p);
      case Inserted => IncreaseMoves(s, i, ok, p);
      case Incremented => assert CastMove(s, ReadRedis(s, i, ok), i, p);
      case Fallback => assert CastMove(s, ReadMongo(s, i, ok), i, p);
      case Counted => PublishMoves(s, i, ok, p);
      case Accepted =>
      case Rejected(_) =>
    }
  }

  lemma EarlyStepMoves(s: State, i: nat, ok: bool, p: PollId)
    requires Retired(s, p) && i < |s.casts| && (s.casts[i].pc.Started? || s.casts[i].pc.PollRead?)
    ensures CastMove(s, StepCast(s, i, ok), i, p)
  {
  }

  lemma InsertMoves(s: State, i: nat, ok: bool, p: PollId)
    requires i < |s.casts| && s.casts[i].pc.NotVoted?
    ensures CastMove(s, Insert(s, i, ok), i, p)
  {
  }

  lemma IncreaseMoves(s: State, i: nat, ok: bool, p: PollId)
    requires i < |s.casts| && s.casts[i].pc.Inserted?
    ensures CastMove(s, Increase(s, i, ok), i, p)
  {
  }

  lemma PublishMoves(s: State, i: nat, ok: bool, p: PollId)
    requires i < |s.casts| && s.casts[i].pc.Counted?
    ensures CastMove(s, Publish(s, i, ok), i, p)
  {
  }

  /** What any other step does: at most one Cast starts, or one poll's votes are purged. */
  ghost predicate OtherMove(s: State, t: State) {
    && (t.casts == s.casts
        || (|t.casts| == |s.casts| + 1 && t.casts[..|s.casts|] == s.casts && !MayInsert(t.casts[|s.casts|])))
    && (t.votes == s.votes || exists q :: t.votes == Keep(s.votes, OffPoll(q)))
  }

  lemma OtherStepMoves(s: State, a: Step)
    requires !a.CastStep?
    ensures OtherMove(s, Apply(s, a))
  {
    if !a.BeginCast? {
      OthersLeave(s, a);
      if a.AdminStep? && Loud(s, a) {
        PurgeMoves(s, a.k, a.ok);
      } else {
        VotesLeft(s, a);
      }
    }
  }

  lemma PurgeMoves(s: State, k: nat, ok: bool)
    requires k < |s.admins|
    ensures Purge(s, k, ok).votes == if ok then Keep(s.votes, OffPoll(s.admins[k].poll)) else s.votes
  {
  }

  lemma CastMoveKeepsExposure(s: State, t: State, i: nat, p: PollId)
    requires CastMove(s, t, i, p)
    ensures Exposure(t, p) <= Exposure(s, p)
  {
    TallySet(s.casts, i, t.casts[i], MayInsertOn(p));
    if t.votes != s.votes { TallyPush(s.votes, VoteOf(s.casts[i]), OnPoll(p)); }
  }

  lemma OtherMoveKeepsExposure(s: State, t: State, p: PollId)
    requires OtherMove(s, t)
    ensures Exposure(t, p) <= Exposure(s, p)
  {
    if t.casts != s.casts {
      assert t.casts == s.casts + [t.casts[|s.casts|]];
      TallyPush(s.casts, t.casts[|s.casts|], MayInsertOn(p));
    }
    if t.votes != s.votes {
      var q :| t.votes == Keep(s.votes, OffPoll(q));
      TallyKeep(s.votes, OffPoll(q), OnPoll(p));
    }
  }

  lemma ExposureStep(s: State, a: Step, p: PollId)
    requires Retired(s, p)
    ensures Exposure(Apply(s, a), p) <= Exposure(s, p)
  {
    if !a.CastStep? {
      OtherStepMoves(s, a);
      OtherMoveKeepsExposure(s, Apply(s, a), p);
    } else if a.i < |s.casts| {
      CastStepMoves(s, a.i, a.ok, p);
      if Apply(s, a) != s { CastMoveKeepsExposure(s, Apply(s, a), a.i, p); }
    }
  }

  /** After Close's write or Delete's final DeleteOne, the stored votes stay within those stored at that
      moment plus the Casts that had already read the poll as active. */
  lemma {:induction false} BoundedOvershoot(s: State, run: seq<Step>, p: PollId)
    requires Retired(s, p)
    ensures Exposure(Exec(s, run), p) <= Exposure(s, p)
    ensures CountByPoll(Exec(s, run).votes, p) <= CountByPoll(s.votes, p) + Tally(s.casts, MayInsertOn(p))
    decreases |run|
  {
    if run != [] {
      var m, a := Exec(s, run[..|run| - 1]), run[|run| - 1];
      BoundedOvershoot(s, run[..|run| - 1], p);
      StatusAbsorbing(s, run[..|run| - 1], p);
      ExposureStep(m, a, p);
    }
  }

  // ---- options and owners -------------------------------------------------------------------

  /** The option list never changes, so every stored vote names an option of the poll it was cast on. */
  lemma VotesNameOptions(s: State, v: Vote)
    requires Reachable(s) && v in s.votes
    ensures v.poll in s.created && v.option in Ids(s.created[v.poll])
    ensures v.poll in s.polls ==> v.option in Ids(s.polls[v.poll].options)
  {
    ReachableOk(s);
    assert v.poll in s.polls ==> OptionsKnown(s, v.poll, s.polls[v.poll].options);
  }

  /** A call past its ownership check belongs to the creator. */
  ghost predicate Owns(s: State, d: Admin) {
    d.pc.Purging? || d.pc.Writing? ==>
      d.poll in s.created && (d.poll in s.polls ==> s.polls[d.poll].creator == d.user)
  }

  ghost predicate Owners(s: State) {
    && (forall p :: p in s.polls ==> p in s.created)
    && (forall k: nat :: k < |s.admins| ==> Owns(s, s.admins[k]))
  }

  lemma OwnersKept(s: State, t: State)
    requires Owners(s) && PollsMove(s, t) && (forall p :: p in t.polls ==> p in t.created)
    requires forall k: nat :: k < |t.admins| ==>
               (k < |s.admins| && t.admins[k] == s.admins[k]) || Owns(t, t.admins[k])
    ensures Owners(t)
  {
    forall k: nat | k < |t.admins| ensures Owns(t, t.admins[k]) {
      if k < |s.admins| && t.admins[k] == s.admins[k] { assert Owns(s, s.admins[k]); }
    }
  }

  lemma AdminStepKeepsOwners(s: State, k: nat, ok: bool)
    requires Owners(s) && k < |s.admins|
    ensures Owners(StepAdmin(s, k, ok))
  {
    assert Owns(s, s.admins[k]);
    AdminMovesPolls(s, k, ok);
    match s.admins[k].pc {
      case Looking => OwnersKept(s, WithAdmin(s, k, FindForAdmin(s, s.admins[k], ok)));
      case Purging => OwnersKept(s, Purge(s, k, ok));
      case Writing => OwnersKept(s, Write(s, k, ok));
      case ReadingBack => OwnersKept(s, WithAdmin(s, k, if ok then Done else Refused));
      case Done =>
      case Refused =>
    }
  }

  lemma StepKeepsOwners(s: State, a: Step)
    requires Owners(s)
    ensures Owners(Apply(s, a))
  {
    match a {
      case CreatePoll(id, poll) =>
        StepMovesPolls(s, a);
        OwnersKept(s, Create(s, id, poll));
      case BeginCast(_, _, _) => OwnersKept(s, Apply(s, a));
      case CastStep(i, ok) => if i < |s.casts| { CastLeavesPolls(s, i, ok); OwnersKept(s, StepCast(s, i, ok)); }
      case BeginResults(_) => OwnersKept(s, Apply(s, a));
      case ResultsStep(j, ok) =>
        if j < |s.readers| {
          ReaderLeavesPolls(s, j, ok);
          OwnersKept(s, StepReader(s, j, ok));
        }
      case BeginAdmin(_, _, _) => OwnersKept(s, Apply(s, a));
      case AdminStep(k, ok) => if k < |s.admins| { AdminStepKeepsOwners(s, k, ok); }
      case BeginRebuild(_, _) => OwnersKept(s, Apply(s, a));
      case RebuildStep(r, ok) =>
        if r < |s.rebuilds| {
          RebuildLeavesPolls(s, r, ok);
          OwnersKept(s, StepRebuild(s, r, ok));
        }
    }
  }

  lemma {:induction false} RunKeepsOwners(run: seq<Step>)
    ensures Owners(Exec(Init(), run))
    decreases |run|
  {
    if run != [] {
      RunKeepsOwners(run[..|run| - 1]);
      StepKeepsOwners(Exec(Init(), run[..|run| - 1]), run[|run| - 1]);
    }
  }

  /** In any run a step that changes or removes a poll's document is sent by a call of its creator. */
  lemma OnlyCreatorWrites(s: State, a: Step, p: PollId)
    requires Reachable(s) && p in s.polls
    requires p !in Apply(s, a).polls || Apply(s, a).polls[p] != s.polls[p]
    ensures a.AdminStep? && a.k < |s.admins| && s.admins[a.k].poll == p && s.admins[a.k].user == s.polls[p].creator
  {
    var run :| s == Exec(Init(), run);
    RunKeepsOwners(run);
    match a {
      case CastStep(i, ok) => if i < |s.casts| { CastLeavesPolls(s, i, ok); }
      case ResultsStep(j, ok) => if j < |s.readers| { ReaderLeavesPolls(s, j, ok); }
      case RebuildStep(r, ok) => if r < |s.rebuilds| { RebuildLeavesPolls(s, r, ok); }
      case AdminStep(k, ok) =>
        if k < |s.admins| {
          AdminMovesPolls(s, k, ok);
          assert Owns(s, s.admins[k]);
        }
      case _ =>
    }
  }
}
