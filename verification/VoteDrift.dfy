/** How the drift of a counter lasts, and what it is in runs with Deletes. */
module VoteDrift {
  import opened Tallies
  import opened Models
  import opened VoteProtocol
  import opened VoteLinks
  import opened VoteCounts
  import opened VoteEvents
  import opened VoteTheorems
  import opened VotePurges

  // ---- what a step does to the marks --------------------------------------------------------

  ghost predicate Pushed(s: State, t: State, m: Mark) {
    t.accepted == s.accepted + [m] && m.inc.Pending? && m.at == s.clock
  }

  ghost predicate Settled(s: State, t: State, k: nat, inc: Increment) {
    && k < |s.accepted| && s.accepted[k].inc.Pending? && !inc.Pending? && (inc.Applied? ==> inc.at == s.clock)
    && t.accepted == s.accepted[k := s.accepted[k].(inc := inc)]
  }

  ghost predicate MarksMove(s: State, t: State) {
    || t.accepted == s.accepted
    || (exists m :: Pushed(s, t, m))
    || (exists k: nat, inc :: Settled(s, t, k, inc))
  }

  lemma CastMovesMarks(s: State, i: nat, ok: bool)
    requires Links(s) && i < |s.casts|
    ensures MarksMove(s, StepCast(s, i, ok)) && s.clock <= StepCast(s, i, ok).clock
  {
    var c := s.casts[i];
    match c.pc {
      case NotVoted =>
        var t := Insert(s, i, ok);
        assert t.accepted == s.accepted || Pushed(s, t, Mark(VoteOf(c), i, s.clock, Pending));
      case Inserted =>
        assert CastOk(s, i, c);
        assert Settled(s, Increase(s, i, ok), c.mark, if ok then Applied(s.clock) else Lost);
      case _ => CastQuiet(s, i, ok);
    }
  }

  lemma StepMovesMarks(s: State, a: Step)
    requires Links(s)
    ensures MarksMove(s, Apply(s, a)) && s.clock <= Apply(s, a).clock
  {
    if a.CastStep? {
      if a.i < |s.casts| { CastMovesMarks(s, a.i, a.ok); }
    } else if a.RebuildStep? {
      if a.r < |s.rebuilds| { RebuildClock(s, a.r, a.ok); }
    } else if a.AdminStep? && Loud(s, a) {
      assert Apply(s, a) == Purge(s, a.k, a.ok);
    } else if !a.BeginRebuild? {
      OthersQuiet(s, a);
    }
  }

  lemma RebuildClock(s: State, r: nat, ok: bool)
    requires r < |s.rebuilds|
    ensures StepRebuild(s, r, ok).accepted == s.accepted && s.clock <= StepRebuild(s, r, ok).clock
  {
    match s.rebuilds[r].pc {
      case Snapshotting =>
      case Deleting =>
      case Setting(next) =>
      case Ended =>
    }
  }

  /** A property of marks that is decided before the present moment. */
  ghost predicate Past(f: Mark -> bool, now: nat) {
    && (forall m: Mark :: m.inc.Pending? && m.at == now ==> !f(m))
    && (forall m: Mark, inc: Increment ::
          m.inc.Pending? && !inc.Pending? && (inc.Applied? ==> inc.at == now) ==> f(m.(inc := inc)) == f(m))
  }

  lemma PastTally(s: State, t: State, f: Mark -> bool)
    requires MarksMove(s, t) && Past(f, s.clock)
    ensures Tally(t.accepted, f) == Tally(s.accepted, f)
  {
    if m :| Pushed(s, t, m) {
      TallyPush(s.accepted, m, f);
    } else if k: nat, inc :| Settled(s, t, k, inc) {
      TallySet(s.accepted, k, s.accepted[k].(inc := inc), f);
    }
  }

  // ---- the drift lasts ----------------------------------------------------------------------

  function AppliedBy(p: PollId, o: OptionId, u: nat): Mark -> bool {
    (m: Mark) => m.vote == Vote(p, o, m.vote.token) && m.inc.Applied? && m.inc.at <= u
  }

  function AppliedFor(p: PollId, o: OptionId): Mark -> bool {
    (m: Mark) => m.vote == Vote(p, o, m.vote.token) && m.inc.Applied?
  }

  /** How far conservation is off: 0 until a rebuild writes the field. */
  ghost function Offset(s: State, p: PollId, o: OptionId): int {
    Counter(s, p, o) + Tally(s.casts, Between(p, o)) + Tally(s.accepted, LostFor(p, o))
    - Tally(s.accepted, MarkFor(p, o))
  }

  lemma OffsetIs(s: State, p: PollId, o: OptionId)
    requires Links(s) && CounterOk(s, p, o)
    ensures var b := BaseOf(s, p, o); Offset(s, p, o) == b.value - Tally(s.accepted, AppliedBy(p, o, b.setAt))
  {
    var b := BaseOf(s, p, o);
    PendingAreBetween(s, p, o);
    TallySplit(s.accepted, MarkFor(p, o), AppliedFor(p, o), UnappliedFor(p, o));
    TallySplit(s.accepted, UnappliedFor(p, o), PendingFor(p, o), LostFor(p, o));
    TallySplit(s.accepted, AppliedFor(p, o), AppliedBy(p, o, b.setAt), AppliedAfter(p, o, b.setAt));
  }

  /** No step of the run writes the field `o` of `p` for a rebuild. */
  ghost predicate NoWrites(s: State, run: seq<Step>, p: PollId, o: OptionId) {
    run != [] ==>
      var front := run[..|run| - 1];
      NoWrites(s, front, p, o) && Rewrites(Exec(s, front), run[|run| - 1], p, o).None?
  }

  lemma AppliedIsPast(p: PollId, o: OptionId, u: nat, now: nat)
    requires u < now
    ensures Past(AppliedBy(p, o, u), now)
  {
  }

  lemma InsertedIsPast(p: PollId, o: OptionId, u: nat, now: nat)
    requires u < now
    ensures Past(InsertedBy(p, o, u), now)
  {
  }

  lemma AppliedKept(s: State, a: Step, p: PollId, o: OptionId, u: nat)
    requires Links(s) && u < s.clock
    ensures Tally(Apply(s, a).accepted, AppliedBy(p, o, u)) == Tally(s.accepted, AppliedBy(p, o, u))
  {
    StepMovesMarks(s, a);
    AppliedIsPast(p, o, u, s.clock);
    PastTally(s, Apply(s, a), AppliedBy(p, o, u));
  }

  lemma InsertedKept(s: State, a: Step, p: PollId, o: OptionId, u: nat)
    requires Links(s) && u < s.clock
    ensures Tally(Apply(s, a).accepted, InsertedBy(p, o, u)) == Tally(s.accepted, InsertedBy(p, o, u))
  {
    StepMovesMarks(s, a);
    InsertedIsPast(p, o, u, s.clock);
    PastTally(s, Apply(s, a), InsertedBy(p, o, u));
  }

  lemma OffsetStep(s: State, a: Step, p: PollId, o: OptionId)
    requires Reachable(s) && Rewrites(s, a, p, o).None?
    ensures Offset(Apply(s, a), p, o) == Offset(s, p, o)
  {
    var t, b := Apply(s, a), BaseOf(s, p, o);
    ReachableStep(s, a);
    CountersOk(s, p, o);
    CountersOk(t, p, o);
    BaseIsLastWrite(s, a, p, o);
    OffsetIs(s, p, o);
    OffsetIs(t, p, o);
    AppliedKept(s, a, p, o, b.setAt);
  }

  lemma CountersOk(s: State, p: PollId, o: OptionId)
    requires Reachable(s)
    ensures Links(s) && CounterOk(s, p, o) && MongoOk(s, p, o)
  {
    ReachableOk(s);
  }

  /** Until a rebuild next writes the field, counter + Casts between insert and increment + lost increments stay
      off the inserts ever made by the same number, in every run. */
  lemma {:induction false} DriftStays(s: State, run: seq<Step>, p: PollId, o: OptionId)
    requires Reachable(s) && NoWrites(s, run, p, o)
    ensures Offset(Exec(s, run), p, o) == Offset(s, p, o)
    decreases |run|
  {
    if run != [] {
      var front := run[..|run| - 1];
      DriftStays(s, front, p, o);
      ReachableRun(s, front);
      OffsetStep(Exec(s, front), run[|run| - 1], p, o);
    }
  }

  // ---- drift with Delete --------------------------------------------------------------------

  /** How many votes that satisfy `f` the run has removed up to the time `u`, and after it. */
  ghost function RemovedUpTo(run: seq<Step>, u: nat, f: Vote -> bool): nat {
    if run == [] then 0 else
      var s := Exec(Init(), run[..|run| - 1]);
      RemovedUpTo(run[..|run| - 1], u, f) + if s.clock <= u then Tally(RemovedBy(s, run[|run| - 1]), f) else 0
  }

  ghost function RemovedAfter(run: seq<Step>, u: nat, f: Vote -> bool): nat {
    if run == [] then 0 else
      var s := Exec(Init(), run[..|run| - 1]);
      RemovedAfter(run[..|run| - 1], u, f) + if s.clock > u then Tally(RemovedBy(s, run[|run| - 1]), f) else 0
  }

  lemma {:induction false} RemovedSplits(run: seq<Step>, u: nat, f: Vote -> bool)
    ensures Tally(Removed(run), f) == RemovedUpTo(run, u, f) + RemovedAfter(run, u, f)
    decreases |run|
  {
    if run != [] {
      var front := run[..|run| - 1];
      RemovedSplits(front, u, f);
      TallyJoin(Removed(front), RemovedBy(Exec(Init(), front), run[|run| - 1]), f);
    }
  }

  lemma {:induction false} NoneAfter(run: seq<Step>, u: nat, f: Vote -> bool)
    requires Exec(Init(), run).clock <= u
    ensures RemovedAfter(run, u, f) == 0
    decreases |run|
  {
    if run != [] {
      var front := run[..|run| - 1];
      RunLinks(front);
      StepMovesMarks(Exec(Init(), front), run[|run| - 1]);
      NoneAfter(front, u, f);
    }
  }

  lemma {:induction false} NoneByStart(run: seq<Step>, f: Vote -> bool)
    ensures RemovedUpTo(run, 0, f) == 0
    decreases |run|
  {
    if run != [] {
      RunLinks(run[..|run| - 1]);
      NoneByStart(run[..|run| - 1], f);
    }
  }

  lemma {:induction false} RunLinks(run: seq<Step>)
    ensures Links(Exec(Init(), run)) && Numbers(Exec(Init(), run))
  {
    RunKeepsInvariant(run);
  }

  ghost predicate Holds(b: Rebuild) { b.pc.Deleting? || b.pc.Setting? }

  /** A count taken at the time `u` is the inserts made until then less the votes removed until then. */
  ghost predicate WorthAt(run: seq<Step>, p: PollId, o: OptionId, count: int, u: nat) {
    count + RemovedUpTo(run, u, VoteFor(p, o)) == Tally(Exec(Init(), run).accepted, InsertedBy(p, o, u))
  }

  ghost predicate SnapWorth(run: seq<Step>, o: OptionId, b: Rebuild) {
    Holds(b) ==> WorthAt(run, b.poll, o, Lookup(b.snap, o), b.snapAt)
  }

  ghost predicate Worth(run: seq<Step>, p: PollId, o: OptionId) {
    var s := Exec(Init(), run);
    && WorthAt(run, p, o, BaseOf(s, p, o).value, BaseOf(s, p, o).snapAt)
    && forall r: nat :: r < |s.rebuilds| && s.rebuilds[r].poll == p ==> SnapWorth(run, o, s.rebuilds[r])
  }

  lemma WorthStays(run: seq<Step>, a: Step, p: PollId, o: OptionId, count: int, u: nat)
    requires WorthAt(run, p, o, count, u) && u < Exec(Init(), run).clock
    ensures WorthAt(run + [a], p, o, count, u)
  {
    var s := Exec(Init(), run);
    RunLinks(run);
    assert (run + [a])[..|run|] == run;
    InsertedKept(s, a, p, o, u);
  }

  /** The snapshot of a rebuild just taken. */
  lemma SnapshotWorth(run: seq<Step>, r: nat, o: OptionId)
    requires var s := Exec(Init(), run); r < |s.rebuilds| && s.rebuilds[r].pc.Snapshotting?
    ensures var next := run + [RebuildStep(r, true)]; SnapWorth(next, o, Exec(Init(), next).rebuilds[r])
  {
    var s, a, p := Exec(Init(), run), RebuildStep(r, true), Exec(Init(), run).rebuilds[r].poll;
    assert (run + [a])[..|run|] == run;
    var t := TakeSnapshot(s, r, true);
    assert Exec(Init(), run + [a]) == t;
    RunLinks(run);
    SnapshotIsStored(s, r, o);
    InsertsAccounted(run, VoteFor(p, o));
    TallySame(s.accepted, MarkFor(p, o), OfVote(VoteFor(p, o)));
    RemovedSplits(run, s.clock, VoteFor(p, o));
    NoneAfter(run, s.clock, VoteFor(p, o));
    AllInsertedByNow(s, p, o);
  }

  /** What a step does to the rebuild at place `r`. */
  lemma RebuildMoves(s: State, a: Step, r: nat)
    requires r < |Apply(s, a).rebuilds| && Holds(Apply(s, a).rebuilds[r])
    ensures r < |s.rebuilds| && s.rebuilds[r].poll == Apply(s, a).rebuilds[r].poll
    ensures var b, c := s.rebuilds[r], Apply(s, a).rebuilds[r];
      (Holds(b) && c.snap == b.snap && c.snapAt == b.snapAt) || (b.pc.Snapshotting? && a == RebuildStep(r, true))
  {
    if a.RebuildStep? {
      if a.r < |s.rebuilds| { RebuildStepMoves(s, a.r, a.ok, r); }
    } else if !a.BeginRebuild? {
      RebuildsLeft(s, a);
    }
  }

  lemma RebuildsLeft(s: State, a: Step)
    requires !a.RebuildStep? && !a.BeginRebuild?
    ensures Apply(s, a).rebuilds == s.rebuilds
  {
    if a.CastStep? {
      if a.i < |s.casts| { CastLeavesRebuilds(s, a.i, a.ok); }
    } else if a.AdminStep? && Loud(s, a) {
      assert Apply(s, a) == Purge(s, a.k, a.ok);
    } else {
      OthersQuiet(s, a);
    }
  }

  lemma CastLeavesRebuilds(s: State, i: nat, ok: bool)
    requires i < |s.casts|
    ensures StepCast(s, i, ok).rebuilds == s.rebuilds
  {
    match s.casts[i].pc {
      case NotVoted => assert StepCast(s, i, ok) == Insert(s, i, ok);
      case Inserted => assert StepCast(s, i, ok) == Increase(s, i, ok);
      case _ => CastQuiet(s, i, ok);
    }
  }

  /** A rebuild's own step: nothing else moves, and a snapshot once taken is kept. */
  ghost predicate OwnMove(s: State, t: State, q: nat, ok: bool)
    requires q < |s.rebuilds|
  {
    && |t.rebuilds| == |s.rebuilds| && t.rebuilds == s.rebuilds[q := t.rebuilds[q]]
    && var b, c := s.rebuilds[q], t.rebuilds[q];
       && c.poll == b.poll
       && (Holds(b) ==> c.snap == b.snap && c.snapAt == b.snapAt)
       && (Holds(c) ==> Holds(b) || (b.pc.Snapshotting? && ok))
  }

  lemma SetFieldMoves(s: State, q: nat, ok: bool)
    requires q < |s.rebuilds| && s.rebuilds[q].pc.Setting? && s.rebuilds[q].pc.next < |s.rebuilds[q].options|
    ensures OwnMove(s, SetField(s, q, ok), q, ok)
  {
  }

  lemma DeleteHashMoves(s: State, q: nat, ok: bool)
    requires q < |s.rebuilds| && s.rebuilds[q].pc.Deleting?
    ensures OwnMove(s, DeleteHash(s, q, ok), q, ok)
  {
  }

  lemma OwnStepMoves(s: State, q: nat, ok: bool)
    requires q < |s.rebuilds|
    ensures OwnMove(s, StepRebuild(s, q, ok), q, ok)
  {
    match s.rebuilds[q].pc {
      case Snapshotting =>
      case Deleting => DeleteHashMoves(s, q, ok);
      case Setting(next) => if next < |s.rebuilds[q].options| { SetFieldMoves(s, q, ok); }
      case Ended =>
    }
  }

  lemma RebuildStepMoves(s: State, q: nat, ok: bool, r: nat)
    requires q < |s.rebuilds| && r < |StepRebuild(s, q, ok).rebuilds| && Holds(StepRebuild(s, q, ok).rebuilds[r])
    ensures r < |s.rebuilds| && s.rebuilds[r].poll == StepRebuild(s, q, ok).rebuilds[r].poll
    ensures var b, c := s.rebuilds[r], StepRebuild(s, q, ok).rebuilds[r];
      (Holds(b) && c.snap == b.snap && c.snapAt == b.snapAt) || (b.pc.Snapshotting? && q == r && ok)
  {
    OwnStepMoves(s, q, ok);
  }

  lemma SnapsStayWorth(run: seq<Step>, a: Step, p: PollId, o: OptionId)
    requires Worth(run, p, o)
    ensures var t := Exec(Init(), run + [a]);
      forall r: nat :: r < |t.rebuilds| && t.rebuilds[r].poll == p ==> SnapWorth(run + [a], o, t.rebuilds[r])
  {
    assert (run + [a])[..|run|] == run;
    var s, t := Exec(Init(), run), Exec(Init(), run + [a]);
    RunLinks(run);
    forall r: nat | r < |t.rebuilds| && t.rebuilds[r].poll == p ensures SnapWorth(run + [a], o, t.rebuilds[r]) {
      if Holds(t.rebuilds[r]) {
        RebuildMoves(s, a, r);
        var b := s.rebuilds[r];
        if Holds(b) && t.rebuilds[r].snap == b.snap && t.rebuilds[r].snapAt == b.snapAt {
          assert SnapWorth(run, o, b) && SnapOk(s, b);
          WorthStays(run, a, p, o, Lookup(b.snap, o), b.snapAt);
        } else {
          SnapshotWorth(run, r, o);
        }
      }
    }
  }

  lemma BaseStaysWorth(run: seq<Step>, a: Step, p: PollId, o: OptionId)
    requires Worth(run, p, o)
    ensures var b := BaseOf(Exec(Init(), run + [a]), p, o); WorthAt(run + [a], p, o, b.value, b.snapAt)
  {
    assert (run + [a])[..|run|] == run;
    var s := Exec(Init(), run);
    RunLinks(run);
    BaseIsLastWrite(s, a, p, o);
    var w := Rewrites(s, a, p, o);
    if w.None? {
      assert CounterOk(s, p, o);
      WorthStays(run, a, p, o, BaseOf(s, p, o).value, BaseOf(s, p, o).snapAt);
    } else {
      var b := s.rebuilds[a.r];
      if b.pc.Setting? {
        assert SnapWorth(run, o, b) && SnapOk(s, b);
        WorthStays(run, a, p, o, Lookup(b.snap, o), b.snapAt);
      } else {
        StartIsWorth(run + [a], p, o);
      }
    }
  }

  lemma StartIsWorth(run: seq<Step>, p: PollId, o: OptionId)
    ensures WorthAt(run, p, o, 0, 0)
  {
    RunLinks(run);
    NoneByStart(run, VoteFor(p, o));
    NoneInsertedBeforeStart(Exec(Init(), run), p, o);
  }

  lemma {:induction false} RunKeepsWorth(run: seq<Step>, p: PollId, o: OptionId)
    ensures Worth(run, p, o)
    decreases |run|
  {
    if run == [] {
      StartIsWorth(run, p, o);
    } else {
      var front, a := run[..|run| - 1], run[|run| - 1];
      RunKeepsWorth(front, p, o);
      assert run == front + [a];
      SnapsStayWorth(front, a, p, o);
      BaseStaysWorth(front, a, p, o);
    }
  }

  /** Exact drift in every run, Deletes included: the inserts counted twice less the forgotten ones, and the votes
      removed since the snapshot of the last rebuild write, which the counter still holds. Against the inserts ever
      made it is the votes removed before that snapshot which count, so a counter exceeds those inserts exactly
      when more were counted twice than forgotten or removed before. */
  lemma {:induction false} DriftWithDelete(run: seq<Step>, p: PollId, o: OptionId)
    ensures var s := Exec(Init(), run); var b := BaseOf(s, p, o);
      Counter(s, p, o) - VotesFor(s.votes, p, o)
      == Tally(s.accepted, CountedTwice(p, o, b)) - Tally(s.accepted, Forgotten(p, o, b))
         + RemovedAfter(run, b.snapAt, VoteFor(p, o))
    ensures var s := Exec(Init(), run); var b := BaseOf(s, p, o);
      Counter(s, p, o) - Tally(s.accepted, MarkFor(p, o))
      == Tally(s.accepted, CountedTwice(p, o, b)) - Tally(s.accepted, Forgotten(p, o, b))
         - RemovedUpTo(run, b.snapAt, VoteFor(p, o))
  {
    var s := Exec(Init(), run);
    var b := BaseOf(s, p, o);
    RunLinks(run);
    assert CounterOk(s, p, o);
    RunKeepsWorth(run, p, o);
    InsertsAccounted(run, VoteFor(p, o));
    TallySame(s.accepted, MarkFor(p, o), OfVote(VoteFor(p, o)));
    RemovedSplits(run, b.snapAt, VoteFor(p, o));
    BaseSplits(s, p, o, b);
  }

  lemma BaseSplits(s: State, p: PollId, o: OptionId, b: Base)
    ensures Tally(s.accepted, AppliedAfter(p, o, b.setAt)) - Tally(s.accepted, Later(p, o, b.snapAt))
            == Tally(s.accepted, CountedTwice(p, o, b)) - Tally(s.accepted, Forgotten(p, o, b))
    ensures Tally(s.accepted, MarkFor(p, o))
            == Tally(s.accepted, InsertedBy(p, o, b.snapAt)) + Tally(s.accepted, Later(p, o, b.snapAt))
  {
    TallySplit(s.accepted, AppliedAfter(p, o, b.setAt), CountedTwice(p, o, b), SincePut(p, o, b));
    TallySplit(s.accepted, MarkFor(p, o), InsertedBy(p, o, b.snapAt), Later(p, o, b.snapAt));
    TallySplit(s.accepted, Later(p, o, b.snapAt), SincePut(p, o, b), Forgotten(p, o, b));
  }
}
