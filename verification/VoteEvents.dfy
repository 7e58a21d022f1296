/** The published events: each is the result of an accepted Cast, and the last reader's is exact. */
module VoteEvents {
  import opened Tallies
  import opened Models
  import opened VoteProtocol
  import opened VoteLinks
  import opened VoteCounts
  import opened VoteResults

  ghost predicate Publishes(s: State, i: nat, e: Event) {
    i < |s.casts| && s.casts[i].pc.Accepted? && e == EventOf(s.casts[i])
  }

  ghost predicate Events(s: State) {
    && (forall e :: e in s.published ==> exists i: nat :: Publishes(s, i, e))
    && (forall i: nat :: i < |s.casts| && s.casts[i].pc.Accepted? && s.casts[i].poll !in s.lossy ==>
          EventOf(s.casts[i]) in s.published)
  }

  predicate Waits(c: Cast) { HasInserted(c) && !HasCounts(c) }

  predicate Clean(s: State, p: PollId) { p !in s.lossy && p !in s.rebuilt && p !in s.purged }

  ghost predicate SomeWaits(s: State, p: PollId) {
    exists i: nat :: i < |s.casts| && s.casts[i].poll == p && Waits(s.casts[i])
  }

  ghost predicate NoneInserted(s: State, p: PollId) {
    forall m :: m in s.accepted ==> m.vote.poll != p
  }

  function StoredCounts(s: State, p: PollId): Counts
    requires p in s.created
  {
    MongoCounts(s.votes, p, s.created[p])
  }

  ghost predicate ExactAt(s: State, i: nat, p: PollId)
    requires p in s.created
  {
    i < |s.casts| && s.casts[i].poll == p && HasCounts(s.casts[i]) && s.casts[i].counts == StoredCounts(s, p)
  }

  /** Once nobody is between its insert and its read, the last one to read saw every vote. */
  ghost predicate LastIsExact(s: State, p: PollId) {
    p in s.created && Clean(s, p) ==>
      SomeWaits(s, p) || NoneInserted(s, p) || exists i: nat :: ExactAt(s, i, p)
  }

  ghost predicate Exactness(s: State) { forall p :: LastIsExact(s, p) }

  // ---- events -------------------------------------------------------------------------------

  lemma StillEvents(s: State, t: State)
    requires Events(s) && t.published == s.published && s.lossy <= t.lossy
    requires forall i: nat :: i < |s.casts| && s.casts[i].pc.Accepted? ==> i < |t.casts| && t.casts[i] == s.casts[i]
    requires forall i: nat :: i < |t.casts| && t.casts[i].pc.Accepted? ==> i < |s.casts| && t.casts[i] == s.casts[i]
    ensures Events(t)
  {
    forall e | e in t.published ensures exists i: nat :: Publishes(t, i, e) {
      var i: nat :| Publishes(s, i, e);
      assert Publishes(t, i, e);
    }
  }

  lemma PublishKeepsEvents(s: State, i: nat, ok: bool)
    requires Events(s) && i < |s.casts| && s.casts[i].pc.Counted?
    ensures Events(Publish(s, i, ok))
  {
    var t := Publish(s, i, ok);
    forall e | e in t.published ensures exists h: nat :: Publishes(t, h, e) {
      if e in s.published {
        var h: nat :| Publishes(s, h, e);
        assert Publishes(t, h, e);
      } else {
        assert Publishes(t, i, e);
      }
    }
  }

  /** A Cast that moves without publishing. */
  lemma MoveKeepsEvents(s: State, t: State, i: nat)
    requires Events(s) && i < |s.casts| == |t.casts| && t.casts == s.casts[i := t.casts[i]]
    requires !s.casts[i].pc.Accepted? && !t.casts[i].pc.Accepted?
    requires t.published == s.published && s.lossy <= t.lossy
    ensures Events(t)
  {
    StillEvents(s, t);
  }

  lemma EarlyStepKeepsEvents(s: State, i: nat, ok: bool)
    requires Events(s) && i < |s.casts| && (s.casts[i].pc.Started? || MayInsert(s.casts[i]))
    ensures Events(StepCast(s, i, ok))
  {
    match s.casts[i].pc {
      case Started => MoveKeepsEvents(s, WithCast(s, i, FindForCast(s, s.casts[i], ok)), i);
      case PollRead => MoveKeepsEvents(s, WithCast(s, i, CheckVoted(s, s.casts[i], ok)), i);
      case NotVoted => MoveKeepsEvents(s, Insert(s, i, ok), i);
    }
  }

  lemma LateStepKeepsEvents(s: State, i: nat, ok: bool)
    requires Events(s) && i < |s.casts| && Waits(s.casts[i])
    ensures Events(StepCast(s, i, ok))
  {
    match s.casts[i].pc {
      case Inserted => MoveKeepsEvents(s, Increase(s, i, ok), i);
      case Incremented => MoveKeepsEvents(s, ReadRedis(s, i, ok), i);
      case Fallback => MoveKeepsEvents(s, ReadMongo(s, i, ok), i);
    }
  }

  lemma CastStepKeepsEvents(s: State, i: nat, ok: bool)
    requires Events(s) && i < |s.casts|
    ensures Events(StepCast(s, i, ok))
  {
    var c := s.casts[i];
    if c.pc.Started? || MayInsert(c) {
      EarlyStepKeepsEvents(s, i, ok);
    } else if Waits(c) {
      LateStepKeepsEvents(s, i, ok);
    } else if c.pc.Counted? {
      PublishKeepsEvents(s, i, ok);
    }
  }

  /** Only the steps of `Cast` move a Cast, publish, or mark a poll lossy. */
  ghost predicate CastsLeft(s: State, t: State) {
    && t.casts == s.casts && t.published == s.published && t.lossy == s.lossy && t.accepted == s.accepted
    && s.rebuilt <= t.rebuilt && s.purged <= t.purged
    && forall p :: p in s.created ==> p in t.created && t.created[p] == s.created[p]
  }

  lemma RebuildLeaves(s: State, r: nat, ok: bool)
    requires r < |s.rebuilds|
    ensures CastsLeft(s, StepRebuild(s, r, ok)) && StepRebuild(s, r, ok).votes == s.votes
  {
    match s.rebuilds[r].pc {
      case Snapshotting =>
      case Deleting =>
      case Setting(next) =>
      case Ended =>
    }
  }

  lemma AdminLeaves(s: State, k: nat, ok: bool)
    requires k < |s.admins|
    ensures CastsLeft(s, StepAdmin(s, k, ok))
  {
    match s.admins[k].pc {
      case Looking =>
      case Purging =>
      case Writing =>
      case ReadingBack =>
      case Done =>
      case Refused =>
    }
  }

  lemma ReaderLeaves(s: State, j: nat, ok: bool)
    requires j < |s.readers|
    ensures CastsLeft(s, StepReader(s, j, ok))
  {
    match s.readers[j].pc {
      case Asked =>
      case Found =>
      case Missed =>
      case Answered =>
      case Failed =>
    }
  }

  lemma OthersLeave(s: State, a: Step)
    requires !a.CastStep? && !a.BeginCast?
    ensures CastsLeft(s, Apply(s, a))
  {
    match a {
      case ResultsStep(j, ok) => if j < |s.readers| { ReaderLeaves(s, j, ok); }
      case AdminStep(k, ok) => if k < |s.admins| { AdminLeaves(s, k, ok); }
      case RebuildStep(r, ok) => if r < |s.rebuilds| { RebuildLeaves(s, r, ok); }
      case CreatePoll(_, _) =>
      case BeginResults(_) =>
      case BeginAdmin(_, _, _) =>
      case BeginRebuild(_, _) =>
    }
  }

  lemma StepKeepsEvents(s: State, a: Step)
    requires Events(s)
    ensures Events(Apply(s, a))
  {
    match a {
      case CastStep(i, ok) => if i < |s.casts| { CastStepKeepsEvents(s, i, ok); }
      case BeginCast(p, o, t) => StillEvents(s, StartCast(s, p, o, t));
      case _ =>
        OthersLeave(s, a);
        StillEvents(s, Apply(s, a));
    }
  }

  // ---- exactness ----------------------------------------------------------------------------

  /** Casts on `p` that wait still wait, and results on `p` stay. */
  ghost predicate SameStage(s: State, t: State, p: PollId) {
    && |s.casts| <= |t.casts|
    && forall i: nat :: i < |s.casts| && s.casts[i].poll == p ==>
         && t.casts[i].poll == p
         && (Waits(s.casts[i]) ==> Waits(t.casts[i]))
         && (HasCounts(s.casts[i]) ==> HasCounts(t.casts[i]) && t.casts[i].counts == s.casts[i].counts)
  }

  lemma StillExact(s: State, t: State, p: PollId)
    requires LastIsExact(s, p) && SameStage(s, t, p)
    requires p in s.created ==> p in t.created && t.created[p] == s.created[p]
    requires p in t.created && p !in s.created ==> NoneInserted(t, p)
    requires Clean(t, p) ==> Clean(s, p)
    requires p in s.created && Clean(t, p) ==> StoredCounts(t, p) == StoredCounts(s, p)
    requires NoneInserted(s, p) ==> NoneInserted(t, p)
    ensures LastIsExact(t, p)
  {
    if p in s.created && Clean(t, p) {
      if SomeWaits(s, p) {
        var i: nat :| i < |s.casts| && s.casts[i].poll == p && Waits(s.casts[i]);
        assert Waits(t.casts[i]);
      } else if !NoneInserted(s, p) {
        var i: nat :| ExactAt(s, i, p);
        assert ExactAt(t, i, p);
      }
    }
  }

  lemma OtherVotesCounted(votes: seq<Vote>, v: Vote, p: PollId, options: seq<PollOption>)
    requires v.poll != p
    ensures MongoCounts(votes + [v], p, options) == MongoCounts(votes, p, options)
  {
    forall o | o in Ids(options) ensures MongoCounts(votes + [v], p, options)[o] == MongoCounts(votes, p, options)[o] {
      CountByOptionIs(votes, p, o);
      CountByOptionIs(votes + [v], p, o);
      TallyPush(votes, v, VoteFor(p, o));
    }
  }

  lemma OtherPurgeCounted(votes: seq<Vote>, q: PollId, p: PollId, options: seq<PollOption>)
    requires p != q
    ensures MongoCounts(Keep(votes, OffPoll(q)), p, options) == MongoCounts(votes, p, options)
  {
    forall o | o in Ids(options)
      ensures MongoCounts(Keep(votes, OffPoll(q)), p, options)[o] == MongoCounts(votes, p, options)[o]
    {
      CountByOptionIs(votes, p, o);
      CountByOptionIs(Keep(votes, OffPoll(q)), p, o);
      TallyKeep(votes, OffPoll(q), VoteFor(p, o));
    }
  }

  lemma InsertKeepsExact(s: State, i: nat, ok: bool, p: PollId)
    requires Links(s) && LastIsExact(s, p) && i < |s.casts| && s.casts[i].pc.NotVoted?
    ensures LastIsExact(Insert(s, i, ok), p)
  {
    var c, t := s.casts[i], Insert(s, i, ok);
    if |t.accepted| == |s.accepted| {
      StillExact(s, t, p);
    } else if c.poll == p {
      assert Waits(t.casts[i]);
    } else {
      if p in s.created { OtherVotesCounted(s.votes, VoteOf(c), p, s.created[p]); }
      StillExact(s, t, p);
    }
  }

  /** A Cast that moves without inserting, keeping its stage. */
  lemma MoveKeepsExact(s: State, t: State, i: nat, p: PollId)
    requires LastIsExact(s, p) && i < |s.casts| == |t.casts| && t.casts == s.casts[i := t.casts[i]]
    requires t.casts[i].poll == s.casts[i].poll && t.casts[i].counts == s.casts[i].counts
    requires Waits(t.casts[i]) == Waits(s.casts[i]) && HasCounts(t.casts[i]) == HasCounts(s.casts[i])
    requires t.created == s.created && t.votes == s.votes && t.rebuilt == s.rebuilt && t.purged == s.purged
    requires s.lossy <= t.lossy && |t.accepted| == |s.accepted|
    requires forall k: nat :: k < |s.accepted| ==> t.accepted[k].vote == s.accepted[k].vote
    ensures LastIsExact(t, p)
  {
    StillExact(s, t, p);
  }

  /** With every insert on `p` past its increment and none lost, the counter is the stored count. */
  lemma CountersExact(s: State, i: nat, o: OptionId)
    requires Links(s) && Numbers(s) && i < |s.casts| && Clean(s, s.casts[i].poll)
    requires s.casts[i].pc.Incremented? || s.casts[i].pc.Fallback?
    requires forall j: nat :: j < |s.casts| && j != i && s.casts[j].poll == s.casts[i].poll ==> !Waits(s.casts[j])
    ensures Counter(s, s.casts[i].poll, o) == VotesFor(s.votes, s.casts[i].poll, o)
  {
    var p := s.casts[i].poll;
    forall m | m in s.accepted ensures AppliedAfter(p, o, 0)(m) == MarkFor(p, o)(m) {
      var k: nat :| k < |s.accepted| && s.accepted[k] == m;
      assert MarkOk(s, k, m) && CastOk(s, m.caster, s.casts[m.caster]);
    }
    TallySame(s.accepted, AppliedAfter(p, o, 0), MarkFor(p, o));
    assert CounterOk(s, p, o) && MongoOk(s, p, o);
  }

  lemma ReadIsExact(s: State, i: nat)
    requires Links(s) && Numbers(s) && Results(s) && i < |s.casts| && Clean(s, s.casts[i].poll)
    requires s.casts[i].pc.Incremented? || s.casts[i].pc.Fallback?
    requires forall j: nat :: j < |s.casts| && j != i && s.casts[j].poll == s.casts[i].poll ==> !Waits(s.casts[j])
    ensures s.casts[i].poll in s.created && s.casts[i].options == s.created[s.casts[i].poll]
    ensures RedisCounts(HashOf(s.redis, s.casts[i].poll), s.casts[i].options) == StoredCounts(s, s.casts[i].poll)
  {
    var p := s.casts[i].poll;
    assert CastOk(s, i, s.casts[i]) && HashOk(s, p);
    var read, stored := RedisCounts(HashOf(s.redis, p), s.casts[i].options), StoredCounts(s, p);
    forall o | o in stored ensures read[o] == stored[o] {
      CountersExact(s, i, o);
      CountByOptionIs(s.votes, p, o);
    }
  }

  /** A Cast that has just read its counts. */
  lemma ReadKeepsExact(s: State, t: State, i: nat, p: PollId)
    requires Links(s) && Numbers(s) && Results(s) && LastIsExact(s, p)
    requires i < |s.casts| == |t.casts| && (s.casts[i].pc.Incremented? || s.casts[i].pc.Fallback?)
    requires t.casts == s.casts[i := t.casts[i]] && t.casts[i].poll == s.casts[i].poll && HasCounts(t.casts[i])
    requires t.created == s.created && t.votes == s.votes && t.rebuilt == s.rebuilt && t.purged == s.purged
    requires s.lossy <= t.lossy && t.accepted == s.accepted
    requires s.casts[i].poll !in t.lossy ==>
               t.casts[i].counts == RedisCounts(HashOf(s.redis, s.casts[i].poll), s.casts[i].options)
               || t.casts[i].counts == MongoCounts(s.votes, s.casts[i].poll, s.casts[i].options)
    ensures LastIsExact(t, p)
  {
    if s.casts[i].poll != p {
      StillExact(s, t, p);
    } else if j: nat :| j < |s.casts| && j != i && s.casts[j].poll == p && Waits(s.casts[j]) {
      assert Waits(t.casts[j]);
    } else if Clean(t, p) {
      ReadIsExact(s, i);
      assert ExactAt(t, i, p);
    }
  }

  lemma EarlyStepKeepsExact(s: State, i: nat, ok: bool, p: PollId)
    requires Links(s) && LastIsExact(s, p) && i < |s.casts| && (s.casts[i].pc.Started? || MayInsert(s.casts[i]))
    ensures LastIsExact(StepCast(s, i, ok), p)
  {
    match s.casts[i].pc {
      case Started => MoveKeepsExact(s, WithCast(s, i, FindForCast(s, s.casts[i], ok)), i, p);
      case PollRead => MoveKeepsExact(s, WithCast(s, i, CheckVoted(s, s.casts[i], ok)), i, p);
      case NotVoted => InsertKeepsExact(s, i, ok, p);
    }
  }

  lemma LateStepKeepsExact(s: State, i: nat, ok: bool, p: PollId)
    requires Links(s) && Numbers(s) && Results(s) && LastIsExact(s, p) && i < |s.casts| && Waits(s.casts[i])
    ensures LastIsExact(StepCast(s, i, ok), p)
  {
    match s.casts[i].pc {
      case Inserted => MoveKeepsExact(s, Increase(s, i, ok), i, p);
      case Incremented =>
        if ok { ReadKeepsExact(s, ReadRedis(s, i, ok), i, p); } else { MoveKeepsExact(s, ReadRedis(s, i, ok), i, p); }
      case Fallback => ReadKeepsExact(s, ReadMongo(s, i, ok), i, p);
    }
  }

  lemma CastStepKeepsExact(s: State, i: nat, ok: bool, p: PollId)
    requires Links(s) && Numbers(s) && Results(s) && LastIsExact(s, p) && i < |s.casts|
    ensures LastIsExact(StepCast(s, i, ok), p)
  {
    var c := s.casts[i];
    if c.pc.Started? || MayInsert(c) {
      EarlyStepKeepsExact(s, i, ok, p);
    } else if Waits(c) {
      LateStepKeepsExact(s, i, ok, p);
    } else if c.pc.Counted? {
      MoveKeepsExact(s, Publish(s, i, ok), i, p);
    }
  }

  lemma PurgeKeepsExact(s: State, k: nat, ok: bool, p: PollId)
    requires LastIsExact(s, p) && k < |s.admins|
    ensures LastIsExact(Purge(s, k, ok), p)
  {
    if s.admins[k].poll != p && p in s.created { OtherPurgeCounted(s.votes, s.admins[k].poll, p, s.created[p]); }
    StillExact(s, Purge(s, k, ok), p);
  }

  lemma InsertsOnCreated(s: State, p: PollId)
    requires Links(s) && p !in s.created
    ensures NoneInserted(s, p)
  {
    forall m | m in s.accepted ensures m.vote.poll != p {
      var k: nat :| k < |s.accepted| && s.accepted[k] == m;
      assert MarkOk(s, k, m) && CastOk(s, m.caster, s.casts[m.caster]);
    }
  }

  lemma OtherStepKeepsExact(s: State, a: Step, p: PollId)
    requires Links(s) && LastIsExact(s, p) && !a.CastStep? && !a.BeginCast?
    ensures LastIsExact(Apply(s, a), p)
  {
    OthersLeave(s, a);
    if p !in s.created { InsertsOnCreated(s, p); }
    if a.AdminStep? && Loud(s, a) {
      PurgeKeepsExact(s, a.k, a.ok, p);
    } else {
      VotesLeft(s, a);
      StillExact(s, Apply(s, a), p);
    }
  }

  lemma VotesLeft(s: State, a: Step)
    requires !a.CastStep? && !a.BeginCast? && !(a.AdminStep? && Loud(s, a))
    ensures Apply(s, a).votes == s.votes
  {
    if a.RebuildStep? {
      if a.r < |s.rebuilds| { RebuildLeaves(s, a.r, a.ok); }
    } else if !a.BeginRebuild? {
      OthersQuiet(s, a);
    }
  }

  lemma StepKeepsExactness(s: State, a: Step)
    requires Links(s) && Numbers(s) && Results(s) && Exactness(s)
    ensures Exactness(Apply(s, a))
  {
    forall p ensures LastIsExact(Apply(s, a), p) {
      match a {
        case CastStep(i, ok) => if i < |s.casts| { CastStepKeepsExact(s, i, ok, p); }
        case BeginCast(q, o, t) => StillExact(s, StartCast(s, q, o, t), p);
        case _ => OtherStepKeepsExact(s, a, p);
      }
    }
  }
}
