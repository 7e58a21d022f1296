/** The counting invariants: what the Redis counters, the stored votes and the snapshots of a
    rebuild are worth in terms of the inserts ever made. */
module VoteCounts {
  import opened Tallies
  import opened Models
  import opened VoteProtocol
  import opened VoteLinks

  function MarkFor(p: PollId, o: OptionId): Mark -> bool {
    (m: Mark) => m.vote == Vote(p, o, m.vote.token)
  }

  function InsertedBy(p: PollId, o: OptionId, t: nat): Mark -> bool {
    (m: Mark) => m.vote == Vote(p, o, m.vote.token) && m.at <= t
  }

  function AppliedAfter(p: PollId, o: OptionId, t: nat): Mark -> bool {
    (m: Mark) => m.vote == Vote(p, o, m.vote.token) && m.inc.Applied? && m.inc.at > t
  }

  function Counter(s: State, p: PollId, o: OptionId): int { Lookup(HashOf(s.redis, p), o) }

  /** The counter is what a rebuild last wrote plus the increments applied since. */
  ghost predicate CounterOk(s: State, p: PollId, o: OptionId) {
    var b := BaseOf(s, p, o);
    && Counter(s, p, o) == b.value + Tally(s.accepted, AppliedAfter(p, o, b.setAt))
    && b.setAt < s.clock && b.snapAt < s.clock
    && (p !in s.rebuilt ==> b == Base(0, 0, 0))
  }

  /** Without a purge the aggregate counts every insert ever made. */
  ghost predicate MongoOk(s: State, p: PollId, o: OptionId) {
    && VotesFor(s.votes, p, o) <= Tally(s.accepted, MarkFor(p, o))
    && (p !in s.purged ==> VotesFor(s.votes, p, o) == Tally(s.accepted, MarkFor(p, o)))
    && (p !in s.purged ==> BaseOf(s, p, o).value == Tally(s.accepted, InsertedBy(p, o, BaseOf(s, p, o).snapAt)))
  }

  ghost predicate SnapOk(s: State, b: Rebuild) {
    b.pc.Deleting? || b.pc.Setting? ==>
      && b.snapAt < s.clock
      && (b.poll !in s.purged ==>
            forall o :: Lookup(b.snap, o) == Tally(s.accepted, InsertedBy(b.poll, o, b.snapAt)))
  }

  ghost predicate Numbers(s: State) {
    && (forall p, o :: CounterOk(s, p, o))
    && (forall p, o :: MongoOk(s, p, o))
    && (forall r: nat :: r < |s.rebuilds| ==> SnapOk(s, s.rebuilds[r]))
  }

  lemma CountByOptionIs(votes: seq<Vote>, p: PollId, o: OptionId)
    ensures Lookup(CountByOption(votes, p), o) == VotesFor(votes, p, o)
  {
    var voted := set v | v in votes && v.poll == p :: v.option;
    if o !in voted {
      forall v | v in votes ensures !VoteFor(p, o)(v) {
        assert v.poll == p ==> v.option in voted;
      }
      TallyZero(votes, VoteFor(p, o));
    }
  }

  /** Steps that touch none of the counted data. */
  ghost predicate Quiet(s: State, t: State) {
    && t.votes == s.votes && t.redis == s.redis && t.accepted == s.accepted && t.bases == s.bases
    && t.rebuilt == s.rebuilt && t.purged == s.purged && s.clock <= t.clock
  }

  lemma QuietKeepsNumbers(s: State, t: State)
    requires Numbers(s) && Quiet(s, t)
    requires forall r: nat :: r < |t.rebuilds| ==> SnapOk(t, t.rebuilds[r])
    ensures Numbers(t)
  {
    forall p, o ensures CounterOk(t, p, o) && MongoOk(t, p, o) {
      assert CounterOk(s, p, o) && MongoOk(s, p, o);
    }
  }

  /** Inserts made up to an earlier time are the same ones later on. */
  ghost predicate PastKept(s: State, t: State) {
    && s.clock <= t.clock && s.purged <= t.purged && t.rebuilds == s.rebuilds
    && forall p, o, u: nat :: u < s.clock ==>
         Tally(t.accepted, InsertedBy(p, o, u)) == Tally(s.accepted, InsertedBy(p, o, u))
  }

  lemma SnapsKept(s: State, t: State)
    requires Numbers(s) && PastKept(s, t)
    ensures forall r: nat :: r < |t.rebuilds| ==> SnapOk(t, t.rebuilds[r])
  {
    forall r: nat | r < |t.rebuilds| ensures SnapOk(t, t.rebuilds[r]) { assert SnapOk(s, s.rebuilds[r]); }
  }

  /** The effect of an insert on one count: the new mark is pending. */
  lemma InsertAt(s: State, t: State, m: Mark, p: PollId, o: OptionId)
    requires CounterOk(s, p, o) && MongoOk(s, p, o)
    requires m.inc.Pending? && m.at == s.clock < t.clock
    requires t.votes == s.votes + [m.vote] && t.accepted == s.accepted + [m]
    requires t.redis == s.redis && t.bases == s.bases && t.rebuilt == s.rebuilt && t.purged == s.purged
    ensures CounterOk(t, p, o) && MongoOk(t, p, o)
  {
    var b := BaseOf(s, p, o);
    TallyPush(s.accepted, m, AppliedAfter(p, o, b.setAt));
    TallyPush(s.accepted, m, InsertedBy(p, o, b.snapAt));
    TallyPush(s.accepted, m, MarkFor(p, o));
    TallyPush(s.votes, m.vote, VoteFor(p, o));
  }

  lemma InsertKeepsNumbers(s: State, i: nat, ok: bool)
    requires Numbers(s) && i < |s.casts|
    ensures Numbers(Insert(s, i, ok))
  {
    var t := Insert(s, i, ok);
    if |t.accepted| == |s.accepted| {
      SnapsKept(s, t);
      QuietKeepsNumbers(s, t);
    } else {
      forall p, o ensures CounterOk(t, p, o) && MongoOk(t, p, o) {
        assert CounterOk(s, p, o) && MongoOk(s, p, o);
        InsertAt(s, t, t.accepted[|s.accepted|], p, o);
      }
      forall p, o, u: nat | u < s.clock
        ensures Tally(t.accepted, InsertedBy(p, o, u)) == Tally(s.accepted, InsertedBy(p, o, u))
      {
        TallyPush(s.accepted, t.accepted[|s.accepted|], InsertedBy(p, o, u));
      }
      SnapsKept(s, t);
    }
  }

  /** The effect of an increment, applied or lost, on one count. */
  lemma IncreaseAt(s: State, t: State, k: nat, inc: Increment, p: PollId, o: OptionId)
    requires CounterOk(s, p, o) && MongoOk(s, p, o)
    requires k < |s.accepted| && s.accepted[k].inc.Pending? && !inc.Pending?
    requires inc.Applied? ==> inc.at == s.clock
    requires s.clock < t.clock && t.votes == s.votes && t.accepted == s.accepted[k := s.accepted[k].(inc := inc)]
    requires t.redis == if inc.Applied? then HIncr(s.redis, s.accepted[k].vote.poll, s.accepted[k].vote.option)
                        else s.redis
    requires t.bases == s.bases && t.rebuilt == s.rebuilt && t.purged == s.purged
    ensures CounterOk(t, p, o) && MongoOk(t, p, o)
  {
    var m := t.accepted[k];
    var b := BaseOf(s, p, o);
    TallySet(s.accepted, k, m, AppliedAfter(p, o, b.setAt));
    TallySet(s.accepted, k, m, InsertedBy(p, o, b.snapAt));
    TallySet(s.accepted, k, m, MarkFor(p, o));
  }

  lemma IncreaseKeepsNumbers(s: State, i: nat, ok: bool)
    requires Links(s) && Numbers(s) && i < |s.casts| && s.casts[i].pc.Inserted?
    ensures Numbers(Increase(s, i, ok))
  {
    var c, t := s.casts[i], Increase(s, i, ok);
    assert CastOk(s, i, c) && MarkOk(s, c.mark, s.accepted[c.mark]);
    forall p, o ensures CounterOk(t, p, o) && MongoOk(t, p, o) {
      assert CounterOk(s, p, o) && MongoOk(s, p, o);
      IncreaseAt(s, t, c.mark, t.accepted[c.mark].inc, p, o);
    }
    forall p, o, u: nat | u < s.clock
      ensures Tally(t.accepted, InsertedBy(p, o, u)) == Tally(s.accepted, InsertedBy(p, o, u))
    {
      TallySet(s.accepted, c.mark, t.accepted[c.mark], InsertedBy(p, o, u));
    }
    SnapsKept(s, t);
  }

  lemma PurgeKeepsNumbers(s: State, k: nat, ok: bool)
    requires Numbers(s) && k < |s.admins|
    ensures Numbers(Purge(s, k, ok))
  {
    var q, t := s.admins[k].poll, Purge(s, k, ok);
    forall p, o ensures CounterOk(t, p, o) && MongoOk(t, p, o) {
      assert CounterOk(s, p, o) && MongoOk(s, p, o);
      TallyKeep(s.votes, OffPoll(q), VoteFor(p, o));
    }
    SnapsKept(s, t);
  }

  /** No increment is later than now, so a write to a field restarts its count. */
  lemma NoneAppliedYet(s: State, p: PollId, o: OptionId)
    requires Links(s)
    ensures Tally(s.accepted, AppliedAfter(p, o, s.clock)) == 0
  {
    forall m | m in s.accepted ensures !AppliedAfter(p, o, s.clock)(m) {
      var k: nat :| k < |s.accepted| && s.accepted[k] == m;
      assert MarkOk(s, k, m);
    }
    TallyZero(s.accepted, AppliedAfter(p, o, s.clock));
  }

  lemma NoneInsertedBeforeStart(s: State, p: PollId, o: OptionId)
    requires Links(s)
    ensures Tally(s.accepted, InsertedBy(p, o, 0)) == 0
  {
    forall m | m in s.accepted ensures !InsertedBy(p, o, 0)(m) {
      var k: nat :| k < |s.accepted| && s.accepted[k] == m;
      assert MarkOk(s, k, m);
    }
    TallyZero(s.accepted, InsertedBy(p, o, 0));
  }

  lemma AllInsertedByNow(s: State, p: PollId, o: OptionId)
    requires Links(s)
    ensures Tally(s.accepted, InsertedBy(p, o, s.clock)) == Tally(s.accepted, MarkFor(p, o))
  {
    forall m | m in s.accepted ensures InsertedBy(p, o, s.clock)(m) == MarkFor(p, o)(m) {
      var k: nat :| k < |s.accepted| && s.accepted[k] == m;
      assert MarkOk(s, k, m);
    }
    TallySame(s.accepted, InsertedBy(p, o, s.clock), MarkFor(p, o));
  }

  lemma SnapshotKeepsNumbers(s: State, r: nat, ok: bool)
    requires Links(s) && Numbers(s) && r < |s.rebuilds|
    ensures Numbers(TakeSnapshot(s, r, ok))
  {
    var t := TakeSnapshot(s, r, ok);
    forall h: nat | h < |t.rebuilds| ensures SnapOk(t, t.rebuilds[h]) {
      assert SnapOk(s, s.rebuilds[h]);
      if h == r && ok {
        var b := t.rebuilds[r];
        forall o
          ensures b.poll !in s.purged ==> Lookup(b.snap, o) == Tally(s.accepted, InsertedBy(b.poll, o, b.snapAt))
        {
          CountByOptionIs(s.votes, b.poll, o);
          AllInsertedByNow(s, b.poll, o);
          assert MongoOk(s, b.poll, o);
        }
      }
    }
    QuietKeepsNumbers(s, t);
  }

  lemma DeleteAt(s: State, r: nat, p: PollId, o: OptionId)
    requires Links(s) && CounterOk(s, p, o) && MongoOk(s, p, o) && r < |s.rebuilds|
    ensures CounterOk(DeleteHash(s, r, true), p, o) && MongoOk(DeleteHash(s, r, true), p, o)
  {
    NoneAppliedYet(s, p, o);
    NoneInsertedBeforeStart(s, p, o);
  }

  lemma DeleteKeepsNumbers(s: State, r: nat, ok: bool)
    requires Links(s) && Numbers(s) && r < |s.rebuilds| && s.rebuilds[r].pc.Deleting?
    ensures Numbers(DeleteHash(s, r, ok))
  {
    var t := DeleteHash(s, r, ok);
    forall h: nat | h < |t.rebuilds| ensures SnapOk(t, t.rebuilds[h]) { assert SnapOk(s, s.rebuilds[h]); }
    if ok {
      forall p, o ensures CounterOk(t, p, o) && MongoOk(t, p, o) { DeleteAt(s, r, p, o); }
    } else {
      QuietKeepsNumbers(s, t);
    }
  }

  /** The effect of a rebuild's write of `base` to field `f` of poll `q` on one count. */
  lemma SetAt(s: State, t: State, q: PollId, f: OptionId, base: Base, p: PollId, o: OptionId)
    requires Links(s) && CounterOk(s, p, o) && MongoOk(s, p, o)
    requires base.setAt == s.clock < t.clock && base.snapAt < s.clock
    requires q !in s.purged ==> base.value == Tally(s.accepted, InsertedBy(q, f, base.snapAt))
    requires t.votes == s.votes && t.accepted == s.accepted && t.purged == s.purged
    requires t.redis == HSet(s.redis, q, f, base.value) && t.rebuilt == s.rebuilt + {q}
    requires t.bases == s.bases[q := PollBaseOf(s, q).(sets := PollBaseOf(s, q).sets[f := base])]
    ensures CounterOk(t, p, o) && MongoOk(t, p, o)
  {
    if p == q && o == f {
      NoneAppliedYet(s, p, o);
      assert BaseOf(t, p, o) == base;
    } else {
      assert BaseOf(t, p, o) == BaseOf(s, p, o);
    }
  }

  lemma SetKeepsNumbers(s: State, r: nat, ok: bool)
    requires Links(s) && Numbers(s) && r < |s.rebuilds|
    requires s.rebuilds[r].pc.Setting? && s.rebuilds[r].pc.next < |s.rebuilds[r].options|
    ensures Numbers(SetField(s, r, ok))
  {
    var t, b := SetField(s, r, ok), s.rebuilds[r];
    var o' := b.options[b.pc.next].id;
    assert SnapOk(s, b);
    forall h: nat | h < |t.rebuilds| ensures SnapOk(t, t.rebuilds[h]) { assert SnapOk(s, s.rebuilds[h]); }
    if ok {
      forall p, o ensures CounterOk(t, p, o) && MongoOk(t, p, o) {
        assert CounterOk(s, p, o) && MongoOk(s, p, o);
        SetAt(s, t, b.poll, o', Base(Lookup(b.snap, o'), b.snapAt, s.clock), p, o);
      }
    } else {
      QuietKeepsNumbers(s, t);
    }
  }

  /** The steps that change the counted data or the snapshots of a rebuild. */
  predicate Loud(s: State, a: Step) {
    match a
    case CastStep(i, _) => i < |s.casts| && (s.casts[i].pc.NotVoted? || s.casts[i].pc.Inserted?)
    case AdminStep(k, _) => k < |s.admins| && s.admins[k].pc.Purging?
    case BeginRebuild(_, _) => true
    case RebuildStep(_, _) => true
    case _ => false
  }

  lemma CastQuiet(s: State, i: nat, ok: bool)
    requires i < |s.casts| && !s.casts[i].pc.NotVoted? && !s.casts[i].pc.Inserted?
    ensures Quiet(s, StepCast(s, i, ok)) && StepCast(s, i, ok).rebuilds == s.rebuilds
    ensures StepCast(s, i, ok).created == s.created
  {
    var c := s.casts[i];
    match c.pc {
      case Started =>
      case PollRead =>
      case Incremented =>
      case Fallback =>
      case Counted =>
      case Accepted =>
      case Rejected(_) =>
    }
  }

  lemma ReaderQuiet(s: State, j: nat, ok: bool)
    requires j < |s.readers|
    ensures Quiet(s, StepReader(s, j, ok)) && StepReader(s, j, ok).rebuilds == s.rebuilds
    ensures StepReader(s, j, ok).created == s.created
  {
    match s.readers[j].pc {
      case Asked =>
      case Found =>
      case Missed =>
      case Answered =>
      case Failed =>
    }
  }

  lemma AdminQuiet(s: State, k: nat, ok: bool)
    requires k < |s.admins| && !s.admins[k].pc.Purging?
    ensures Quiet(s, StepAdmin(s, k, ok)) && StepAdmin(s, k, ok).rebuilds == s.rebuilds
    ensures StepAdmin(s, k, ok).created == s.created
  {
    match s.admins[k].pc {
      case Looking =>
      case Writing =>
      case ReadingBack =>
      case Done =>
      case Refused =>
    }
  }

  lemma OthersQuiet(s: State, a: Step)
    requires !Loud(s, a)
    ensures Quiet(s, Apply(s, a)) && Apply(s, a).rebuilds == s.rebuilds
    ensures forall p :: p in s.created ==> p in Apply(s, a).created && Apply(s, a).created[p] == s.created[p]
  {
    match a {
      case CastStep(i, ok) => if i < |s.casts| { CastQuiet(s, i, ok); }
      case ResultsStep(j, ok) => if j < |s.readers| { ReaderQuiet(s, j, ok); }
      case AdminStep(k, ok) => if k < |s.admins| { AdminQuiet(s, k, ok); }
      case CreatePoll(_, _) =>
      case BeginCast(_, _, _) =>
      case BeginResults(_) =>
      case BeginAdmin(_, _, _) =>
    }
  }

  lemma RebuildStepKeepsNumbers(s: State, r: nat, ok: bool)
    requires Links(s) && Numbers(s) && r < |s.rebuilds|
    ensures Numbers(StepRebuild(s, r, ok))
  {
    match s.rebuilds[r].pc {
      case Snapshotting => SnapshotKeepsNumbers(s, r, ok);
      case Deleting => DeleteKeepsNumbers(s, r, ok);
      case Setting(next) => if next < |s.rebuilds[r].options| { SetKeepsNumbers(s, r, ok); }
      case Ended =>
    }
  }

  lemma BeginRebuildKeepsNumbers(s: State, p: PollId, options: seq<PollOption>)
    requires Numbers(s)
    ensures Numbers(StartRebuild(s, p, options))
  {
    var t := StartRebuild(s, p, options);
    forall r: nat | r < |t.rebuilds| ensures SnapOk(t, t.rebuilds[r]) {
      if r < |s.rebuilds| { assert SnapOk(s, s.rebuilds[r]); }
    }
    QuietKeepsNumbers(s, t);
  }

  lemma StepKeepsNumbers(s: State, a: Step)
    requires Links(s) && Numbers(s)
    ensures Numbers(Apply(s, a))
  {
    if !Loud(s, a) {
      OthersQuiet(s, a);
      SnapsKept(s, Apply(s, a));
      QuietKeepsNumbers(s, Apply(s, a));
    } else {
      match a {
        case CastStep(i, ok) =>
          if s.casts[i].pc.NotVoted? { InsertKeepsNumbers(s, i, ok); } else { IncreaseKeepsNumbers(s, i, ok); }
        case AdminStep(k, ok) => PurgeKeepsNumbers(s, k, ok);
        case BeginRebuild(p, options) => BeginRebuildKeepsNumbers(s, p, options);
        case RebuildStep(r, ok) => if r < |s.rebuilds| { RebuildStepKeepsNumbers(s, r, ok); }
      }
    }
  }
}
