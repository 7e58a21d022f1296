/** What holds in every reachable state of the vote protocol. */
module VoteTheorems {
  import opened Tallies
  import opened Models
  import opened VoteProtocol
  import opened VoteLinks
  import opened VoteCounts
  import opened VoteResults
  import opened VoteUnique
  import opened VoteEvents

  ghost predicate Invariant(s: State) {
    Links(s) && Numbers(s) && Results(s) && Unique(s) && Events(s) && Exactness(s)
  }

  lemma StepKeepsInvariant(s: State, a: Step)
    requires Invariant(s)
    ensures Invariant(Apply(s, a))
  {
    StepKeepsLinks(s, a);
    StepKeepsNumbers(s, a);
    StepKeepsResults(s, a);
    StepKeepsUnique(s, a);
    StepKeepsEvents(s, a);
    StepKeepsExactness(s, a);
  }

  lemma {:induction false} RunKeepsInvariant(run: seq<Step>)
    ensures Invariant(Exec(Init(), run))
    decreases |run|
  {
    if run == [] {
      assert forall p: PollId, o: OptionId :: CounterOk(Init(), p, o) && MongoOk(Init(), p, o);
    } else {
      RunKeepsInvariant(run[..|run| - 1]);
      StepKeepsInvariant(Exec(Init(), run[..|run| - 1]), run[|run| - 1]);
    }
  }

  /** `s` ends some run from the empty stores. */
  ghost predicate Reachable(s: State) { exists run :: s == Exec(Init(), run) }

  lemma ReachableOk(s: State)
    requires Reachable(s)
    ensures Invariant(s)
  {
    var run :| s == Exec(Init(), run);
    RunKeepsInvariant(run);
  }

  lemma {:induction false} ExecJoin(s: State, run: seq<Step>, more: seq<Step>)
    ensures Exec(s, run + more) == Exec(Exec(s, run), more)
    decreases |more|
  {
    if more == [] {
      assert run + more == run;
    } else {
      assert (run + more)[..|run + more| - 1] == run + more[..|more| - 1];
      ExecJoin(s, run, more[..|more| - 1]);
    }
  }

  lemma ReachableRun(s: State, run: seq<Step>)
    requires Reachable(s)
    ensures Reachable(Exec(s, run))
  {
    var before :| s == Exec(Init(), before);
    ExecJoin(Init(), before, run);
  }

  lemma ReachableStep(s: State, a: Step)
    requires Reachable(s)
    ensures Reachable(Apply(s, a))
  {
    var run :| s == Exec(Init(), run);
    assert (run + [a])[..|run|] == run;
    assert Exec(Init(), run + [a]) == Apply(s, a);
  }

  // ---- conservation -------------------------------------------------------------------------

  function PendingFor(p: PollId, o: OptionId): Mark -> bool {
    (m: Mark) => m.vote == Vote(p, o, m.vote.token) && m.inc.Pending?
  }

  function LostFor(p: PollId, o: OptionId): Mark -> bool {
    (m: Mark) => m.vote == Vote(p, o, m.vote.token) && m.inc.Lost?
  }

  function UnappliedFor(p: PollId, o: OptionId): Mark -> bool {
    (m: Mark) => m.vote == Vote(p, o, m.vote.token) && !m.inc.Applied?
  }

  /** The Casts between their insert and their increment. */
  function Between(p: PollId, o: OptionId): Cast -> bool {
    (c: Cast) => c.poll == p && c.option == o && c.pc.Inserted?
  }

  function Places<T>(s: seq<T>, f: T -> bool): set<nat> {
    set i: nat | i < |s| && f(s[i])
  }

  lemma {:induction false} TallyPlaces<T>(s: seq<T>, f: T -> bool)
    ensures Tally(s, f) == |Places(s, f)|
    decreases |s|
  {
    if s != [] {
      var n := |s| - 1;
      TallyPlaces(s[..n], f);
      assert Places(s, f) == Places(s[..n], f) + if f(s[n]) then {n} else {};
    }
  }

  lemma {:induction false} SameSize(from: set<nat>, to: set<nat>, image: nat -> nat)
    requires forall i :: i in from ==> image(i) in to
    requires forall i, j :: i in from && j in from && image(i) == image(j) ==> i == j
    requires forall k :: k in to ==> exists i :: i in from && image(i) == k
    ensures |from| == |to|
    decreases |from|
  {
    if i :| i in from {
      SameSize(from - {i}, to - {image(i)}, image);
    } else {
      assert to == {};
    }
  }

  /** Each Cast between its insert and its increment is one pending mark, and the other way round. */
  lemma PendingAreBetween(s: State, p: PollId, o: OptionId)
    requires Links(s)
    ensures Tally(s.accepted, PendingFor(p, o)) == Tally(s.casts, Between(p, o))
  {
    var casts, marks := Places(s.casts, Between(p, o)), Places(s.accepted, PendingFor(p, o));
    var image := (k: nat) => if k < |s.accepted| then s.accepted[k].caster else 0;
    forall k | k in marks ensures image(k) in casts {
      assert MarkOk(s, k, s.accepted[k]) && CastOk(s, image(k), s.casts[image(k)]);
    }
    forall k, l | k in marks && l in marks && image(k) == image(l) ensures k == l {
      assert MarkOk(s, k, s.accepted[k]) && MarkOk(s, l, s.accepted[l]);
    }
    forall i | i in casts ensures exists k :: k in marks && image(k) == i {
      var k := s.casts[i].mark;
      assert CastOk(s, i, s.casts[i]) && MarkOk(s, k, s.accepted[k]);
      assert k in marks && image(k) == i;
    }
    SameSize(marks, casts, image);
    TallyPlaces(s.casts, Between(p, o));
    TallyPlaces(s.accepted, PendingFor(p, o));
  }

  /** Counter + Casts between insert and increment + lost increments = inserts ever made, and without
      a purge that is the stored count. */
  lemma Conservation(s: State, p: PollId, o: OptionId)
    requires Reachable(s)
    ensures p !in s.rebuilt ==>
              Counter(s, p, o) + Tally(s.casts, Between(p, o)) + Tally(s.accepted, LostFor(p, o))
              == Tally(s.accepted, MarkFor(p, o))
    ensures p !in s.purged ==> Tally(s.accepted, MarkFor(p, o)) == VotesFor(s.votes, p, o)
  {
    ReachableOk(s);
    assert CounterOk(s, p, o) && MongoOk(s, p, o);
    PendingAreBetween(s, p, o);
    forall m | m in s.accepted
      ensures Bit(MarkFor(p, o)(m)) == Bit(AppliedAfter(p, o, 0)(m)) + Bit(UnappliedFor(p, o)(m))
    {
      var k: nat :| k < |s.accepted| && s.accepted[k] == m;
      assert MarkOk(s, k, m);
    }
    TallySplit(s.accepted, MarkFor(p, o), AppliedAfter(p, o, 0), UnappliedFor(p, o));
    TallySplit(s.accepted, UnappliedFor(p, o), PendingFor(p, o), LostFor(p, o));
  }

  // ---- rebuild ------------------------------------------------------------------------------

  /** In the snapshot of `b`, and incremented again after the write of `b`. */
  function CountedTwice(p: PollId, o: OptionId, b: Base): Mark -> bool {
    (m: Mark) => m.vote == Vote(p, o, m.vote.token) && m.at <= b.snapAt && m.inc.Applied? && m.inc.at > b.setAt
  }

  /** Missed by the snapshot of `b`, and not incremented after its write. */
  function Forgotten(p: PollId, o: OptionId, b: Base): Mark -> bool {
    (m: Mark) => m.vote == Vote(p, o, m.vote.token) && m.at > b.snapAt && !(m.inc.Applied? && m.inc.at > b.setAt)
  }

  function SincePut(p: PollId, o: OptionId, b: Base): Mark -> bool {
    (m: Mark) => m.vote == Vote(p, o, m.vote.token) && m.at > b.snapAt && m.inc.Applied? && m.inc.at > b.setAt
  }

  function Later(p: PollId, o: OptionId, t: nat): Mark -> bool {
    (m: Mark) => m.vote == Vote(p, o, m.vote.token) && m.at > t
  }

  /** Exact drift, at any moment of any run with any number of rebuilds: the counter is off by the
      inserts counted twice minus the forgotten ones, relative to the last rebuild write. */
  lemma RebuildDrift(s: State, p: PollId, o: OptionId)
    requires Reachable(s) && p !in s.purged
    ensures var b := BaseOf(s, p, o);
      Counter(s, p, o) - VotesFor(s.votes, p, o)
      == Tally(s.accepted, CountedTwice(p, o, b)) - Tally(s.accepted, Forgotten(p, o, b))
  {
    var b := BaseOf(s, p, o);
    ReachableOk(s);
    assert CounterOk(s, p, o) && MongoOk(s, p, o);
    TallySplit(s.accepted, AppliedAfter(p, o, b.setAt), CountedTwice(p, o, b), SincePut(p, o, b));
    TallySplit(s.accepted, MarkFor(p, o), InsertedBy(p, o, b.snapAt), Later(p, o, b.snapAt));
    TallySplit(s.accepted, Later(p, o, b.snapAt), SincePut(p, o, b), Forgotten(p, o, b));
  }

  /** Missed by the snapshot of `b`, its increment over: it ran before the write of `b` or was lost. */
  function Overwritten(p: PollId, o: OptionId, b: Base): Mark -> bool {
    (m: Mark) => m.vote == Vote(p, o, m.vote.token) && m.at > b.snapAt
                 && (m.inc.Lost? || (m.inc.Applied? && m.inc.at <= b.setAt))
  }

  /** The drift once no Cast on the option is between its insert and its increment. */
  lemma SettledDrift(s: State, p: PollId, o: OptionId)
    requires Reachable(s) && p !in s.purged && Tally(s.casts, Between(p, o)) == 0
    ensures var b := BaseOf(s, p, o);
      Counter(s, p, o) - VotesFor(s.votes, p, o)
      == Tally(s.accepted, CountedTwice(p, o, b)) - Tally(s.accepted, Overwritten(p, o, b))
  {
    var b := BaseOf(s, p, o);
    RebuildDrift(s, p, o);
    ReachableOk(s);
    PendingAreBetween(s, p, o);
    TallyZero(s.accepted, PendingFor(p, o));
    forall m | m in s.accepted ensures Forgotten(p, o, b)(m) == Overwritten(p, o, b)(m) {
      assert !PendingFor(p, o)(m);
    }
    TallySame(s.accepted, Forgotten(p, o, b), Overwritten(p, o, b));
  }

  /** What one command of a rebuild writes to the field `o` of `p`, if anything. */
  function Rewrites(s: State, a: Step, p: PollId, o: OptionId): Option<Base> {
    if !a.RebuildStep? || !a.ok || a.r >= |s.rebuilds| || s.rebuilds[a.r].poll != p then None
    else
      var b := s.rebuilds[a.r];
      match b.pc
      case Deleting => Some(Base(0, 0, s.clock))
      case Setting(next) =>
        if next < |b.options| && b.options[next].id == o then Some(Base(Lookup(b.snap, o), b.snapAt, s.clock)) else None
      case _ => None
  }

  /** The base of a field is the last rebuild write: HSET and DEL on the field move it, and no other step
      of any call does. */
  lemma BaseIsLastWrite(s: State, a: Step, p: PollId, o: OptionId)
    ensures BaseOf(Apply(s, a), p, o) ==
            if Rewrites(s, a, p, o).Some? then Rewrites(s, a, p, o).value else BaseOf(s, p, o)
  {
    if a.RebuildStep? {
      if a.r < |s.rebuilds| { RebuildBase(s, a.r, a.ok, p, o); }
    } else {
      BasesLeft(s, a);
    }
  }

  lemma RebuildBase(s: State, r: nat, ok: bool, p: PollId, o: OptionId)
    requires r < |s.rebuilds|
    ensures var w := Rewrites(s, RebuildStep(r, ok), p, o);
      BaseOf(StepRebuild(s, r, ok), p, o) == if w.Some? then w.value else BaseOf(s, p, o)
  {
    match s.rebuilds[r].pc {
      case Snapshotting =>
      case Deleting =>
      case Setting(next) =>
      case Ended =>
    }
  }

  lemma BasesLeft(s: State, a: Step)
    requires !a.RebuildStep?
    ensures Apply(s, a).bases == s.bases
  {
    if a.CastStep? {
      if a.i < |s.casts| { CastLeavesBases(s, a.i, a.ok); }
    } else if a.AdminStep? && Loud(s, a) {
      assert Apply(s, a) == Purge(s, a.k, a.ok);
    } else if !a.BeginRebuild? {
      OthersQuiet(s, a);
    }
  }

  lemma CastLeavesBases(s: State, i: nat, ok: bool)
    requires i < |s.casts|
    ensures StepCast(s, i, ok).bases == s.bases
  {
    match s.casts[i].pc {
      case NotVoted => assert StepCast(s, i, ok) == Insert(s, i, ok);
      case Inserted => assert StepCast(s, i, ok) == Increase(s, i, ok);
      case _ => CastQuiet(s, i, ok);
    }
  }

  /** The aggregate of a rebuild is the stored count at its time. */
  lemma SnapshotIsStored(s: State, r: nat, o: OptionId)
    requires r < |s.rebuilds| && s.rebuilds[r].pc.Snapshotting?
    ensures var b := StepRebuild(s, r, true).rebuilds[r];
      b.pc.Deleting? && b.snapAt == s.clock && Lookup(b.snap, o) == VotesFor(s.votes, b.poll, o)
  {
    CountByOptionIs(s.votes, s.rebuilds[r].poll, o);
  }

  /** The insert and the increment of `m` fall on the same side of the rebuild that wrote `b`. */
  predicate OneSided(m: Mark, b: Base) {
    if m.at <= b.snapAt then !(m.inc.Applied? && m.inc.at > b.setAt) else m.inc.Applied? && m.inc.at > b.setAt
  }

  /** No drift when no Cast straddles the rebuild; a lost increment before the snapshot is repaired. */
  lemma NoStraddleNoDrift(s: State, p: PollId, o: OptionId)
    requires Reachable(s) && p !in s.purged
    requires forall m :: m in s.accepted && MarkFor(p, o)(m) ==> OneSided(m, BaseOf(s, p, o))
    ensures Counter(s, p, o) == VotesFor(s.votes, p, o)
  {
    var b := BaseOf(s, p, o);
    RebuildDrift(s, p, o);
    forall m | m in s.accepted ensures !CountedTwice(p, o, b)(m) && !Forgotten(p, o, b)(m) {
      assert MarkFor(p, o)(m) ==> OneSided(m, b);
    }
    TallyZero(s.accepted, CountedTwice(p, o, b));
    TallyZero(s.accepted, Forgotten(p, o, b));
  }

  // ---- snapshots ----------------------------------------------------------------------------

  /** `counts` was answered for `p` from Redis, by a Cast or by GetResults. */
  ghost predicate AnsweredFromRedis(s: State, p: PollId, counts: Counts) {
    || (exists i: nat :: i < |s.casts| && s.casts[i].source.FromRedis? && s.casts[i].poll == p
          && s.casts[i].counts == counts)
    || (exists j: nat :: j < |s.readers| && s.readers[j].source.FromRedis? && s.readers[j].poll == p
          && s.readers[j].counts == counts)
  }

  lemma AnswerLogged(s: State, p: PollId, counts: Counts) returns (e: nat)
    requires Results(s) && AnsweredFromRedis(s, p, counts)
    ensures e < |s.log| && s.log[e] == Snapshot(p, counts)
  {
    if i: nat :| i < |s.casts| && s.casts[i].source.FromRedis? && s.casts[i].poll == p && s.casts[i].counts == counts {
      assert CastResultOk(s, s.casts[i]);
      e := s.casts[i].source.entry;
    } else {
      var j: nat :| j < |s.readers| && s.readers[j].source.FromRedis? && s.readers[j].poll == p
                    && s.readers[j].counts == counts;
      assert ReaderResultOk(s, s.readers[j]);
      e := s.readers[j].source.entry;
    }
  }

  lemma EntriesComparable(s: State, d: nat, e: nat)
    requires Results(s) && d < |s.log| && e < |s.log| && s.log[d].poll == s.log[e].poll && s.log[d].poll !in s.rebuilt
    ensures Below(s.log[d].counts, s.log[e].counts) || Below(s.log[e].counts, s.log[d].counts)
  {
    if d < e {
      assert Chained(s, s.log[d], s.log[e]);
    } else if e < d {
      assert Chained(s, s.log[e], s.log[d]);
    }
  }

  lemma EntryKeys(s: State, e: nat)
    requires Results(s) && e < |s.log| && s.log[e].poll !in s.rebuilt
    ensures s.log[e].poll in s.created && s.log[e].counts.Keys == Ids(s.created[s.log[e].poll])
  {
    assert LogOk(s, s.log[e]) && HashOk(s, s.log[e].poll);
  }

  /** Any two Redis results of a poll are comparable, over exactly its option IDs, and equal totals
      mean equal counts. */
  lemma SnapshotChain(s: State, p: PollId, left: Counts, right: Counts)
    requires Reachable(s) && p !in s.rebuilt
    requires AnsweredFromRedis(s, p, left) && AnsweredFromRedis(s, p, right)
    ensures p in s.created && left.Keys == right.Keys == Ids(s.created[p])
    ensures Below(left, right) || Below(right, left)
    ensures Sum(left) == Sum(right) ==> left == right
  {
    ReachableOk(s);
    var d := AnswerLogged(s, p, left);
    var e := AnswerLogged(s, p, right);
    EntryKeys(s, d);
    EntryKeys(s, e);
    EntriesComparable(s, d, e);
    if Below(left, right) { SumLe(left, right); } else { SumLe(right, left); }
  }

  /** A voter whose own increment was applied, on a poll whose hash no rebuild has written, sees their own vote
      in a Redis answer, and on a poll not purged in a fallback answer, whatever became of other calls. */
  lemma OwnVoteSeen(s: State, i: nat)
    requires Reachable(s) && i < |s.casts| && s.casts[i].pc.Accepted?
    ensures var c := s.casts[i]; c.mark < |s.accepted| && s.accepted[c.mark].caster == i
    ensures var c := s.casts[i];
      (c.source.FromRedis? && s.accepted[c.mark].inc.Applied? && c.poll !in s.rebuilt)
      || (c.source.FromMongo? && c.poll !in s.purged) ==>
        c.option in c.counts && c.counts[c.option] >= 1
  {
    ReachableOk(s);
    assert CastOk(s, i, s.casts[i]) && CastResultOk(s, s.casts[i]);
  }

  // ---- tokens -------------------------------------------------------------------------------

  function ByToken(p: PollId, t: Token): Mark -> bool {
    (m: Mark) => m.vote.poll == p && m.vote.token == t
  }

  function RaisedBy(p: PollId, t: Token): Mark -> bool {
    (m: Mark) => m.vote.poll == p && m.vote.token == t && m.inc.Applied?
  }

  lemma {:induction false} AtMostOne<T>(s: seq<T>, f: T -> bool)
    requires forall i, j :: 0 <= i < j < |s| ==> !(f(s[i]) && f(s[j]))
    ensures Tally(s, f) <= 1
    decreases |s|
  {
    if s != [] {
      var t := s[..|s| - 1];
      AtMostOne(t, f);
      if f(s[|s| - 1]) {
        forall x | x in t ensures !f(x) {
          var i :| 0 <= i < |t| && t[i] == x;
          assert s[i] == x;
        }
        TallyZero(t, f);
      }
    }
  }

  function HeldBy(p: PollId, t: Token): Vote -> bool { (v: Vote) => v.poll == p && v.token == t }

  /** At most one stored vote per (poll, token); unless Delete purged the poll, at most one insert
      and one counter increment too. */
  lemma OneVotePerToken(s: State, p: PollId, t: Token)
    requires Reachable(s)
    ensures Tally(s.votes, HeldBy(p, t)) <= 1
    ensures p !in s.purged ==> Tally(s.accepted, RaisedBy(p, t)) <= Tally(s.accepted, ByToken(p, t)) <= 1
  {
    ReachableOk(s);
    AtMostOne(s.votes, HeldBy(p, t));
    if p !in s.purged {
      forall k, l | 0 <= k < l < |s.accepted|
        ensures !(ByToken(p, t)(s.accepted[k]) && ByToken(p, t)(s.accepted[l]))
      {
        assert Apart(s, s.accepted[k].vote, s.accepted[l].vote);
      }
      AtMostOne(s.accepted, ByToken(p, t));
    }
    TallyLe(s.accepted, RaisedBy(p, t), ByToken(p, t));
  }

  /** The fallback's total is the number of stored votes and of distinct tokens of the poll. */
  lemma FallbackTotal(s: State, p: PollId)
    requires Reachable(s) && p in s.created
    ensures Sum(StoredCounts(s, p)) == CountByPoll(s.votes, p) == |Tokens(s.votes, p)|
  {
    ReachableOk(s);
    MongoSum(s.votes, p, s.created[p]);
    TokensCounted(s.votes, p);
  }

  // ---- events -------------------------------------------------------------------------------

  lemma ResultBounded(s: State, c: Cast)
    requires Results(s) && CastResultOk(s, c) && c.poll !in s.rebuilt && !c.source.Unread?
    ensures Bounded(s, c.poll, c.counts)
  {
    if c.source.FromRedis? { assert LogOk(s, s.log[c.source.entry]); }
  }

  /** No published event claims more votes than were ever accepted for its poll, whatever failed. */
  lemma NoOvercount(s: State, e: Event)
    requires Reachable(s) && e in s.published && e.poll !in s.rebuilt
    ensures e.total == Sum(e.counts) <= Tally(s.accepted, MarkOn(e.poll))
  {
    ReachableOk(s);
    EventBounded(s, e);
  }

  lemma EventBounded(s: State, e: Event)
    requires Invariant(s) && e in s.published && e.poll !in s.rebuilt
    ensures Bounded(s, e.poll, e.counts)
    ensures e.total == Sum(e.counts) <= Tally(s.accepted, MarkOn(e.poll))
  {
    var i: nat :| Publishes(s, i, e);
    assert CastOk(s, i, s.casts[i]) && CastResultOk(s, s.casts[i]);
    ResultBounded(s, s.casts[i]);
    BoundedSum(s.accepted, e.poll, e.counts);
  }

  /** The keys of an event of a poll with no failure are exactly its option IDs. */
  lemma EventKeys(s: State, e: Event)
    requires Invariant(s) && e in s.published && Clean(s, e.poll)
    ensures e.poll in s.created && e.counts.Keys == Ids(s.created[e.poll])
  {
    var i: nat :| Publishes(s, i, e);
    var c := s.casts[i];
    assert CastOk(s, i, c) && CastResultOk(s, c) && HashOk(s, c.poll);
    if c.source.FromRedis? { assert LogOk(s, s.log[c.source.entry]); }
  }

  lemma BelowStored(s: State, p: PollId, counts: Counts)
    requires Numbers(s) && p in s.created && p !in s.purged && Bounded(s, p, counts) && counts.Keys == Ids(s.created[p])
    ensures Below(counts, StoredCounts(s, p))
  {
    MongoCountsBounded(s, p);
  }

  /** The stored counts of a clean poll are at least those of every event of the poll. */
  lemma StoredIsTop(s: State, f: Event)
    requires Invariant(s) && f in s.published && Clean(s, f.poll)
    ensures f.poll in s.created && Below(f.counts, StoredCounts(s, f.poll))
    ensures f.total <= Sum(StoredCounts(s, f.poll))
  {
    EventKeys(s, f);
    EventBounded(s, f);
    BelowStored(s, f.poll, f.counts);
    SumLe(f.counts, StoredCounts(s, f.poll));
  }

  ghost predicate Returned(c: Cast) { c.pc.Accepted? || c.pc.Rejected? }

  /** The event `e` tells the stored counts of its poll and no event of the poll tells more. */
  ghost predicate TopEvent(s: State, p: PollId, e: Event) {
    && p in s.created && e in s.published && e.poll == p && e.counts == StoredCounts(s, p)
    && forall f :: f in s.published && f.poll == p ==> Below(f.counts, e.counts) && f.total <= e.total
  }

  lemma ExactIsTop(s: State, i: nat, p: PollId)
    requires Invariant(s) && p in s.created && Clean(s, p) && ExactAt(s, i, p) && s.casts[i].pc.Accepted?
    ensures TopEvent(s, p, EventOf(s.casts[i]))
  {
    forall f | f in s.published && f.poll == p
      ensures Below(f.counts, s.casts[i].counts) && f.total <= Sum(s.casts[i].counts)
    {
      StoredIsTop(s, f);
    }
  }

  lemma LastReader(s: State, p: PollId) returns (i: nat)
    requires LastIsExact(s, p) && p in s.created && Clean(s, p) && !NoneInserted(s, p)
    requires forall j: nat :: j < |s.casts| && s.casts[j].poll == p ==> Returned(s.casts[j])
    ensures ExactAt(s, i, p) && s.casts[i].pc.Accepted?
  {
    i :| ExactAt(s, i, p);
  }

  /** Once every Cast on a poll has returned, one published event equals the stored counts and is at
      least every other event of the poll, whatever the publish order. */
  lemma SomeEventExact(s: State, p: PollId)
    requires Reachable(s) && p in s.created && Clean(s, p) && !NoneInserted(s, p)
    requires forall i: nat :: i < |s.casts| && s.casts[i].poll == p ==> Returned(s.casts[i])
    ensures exists e :: TopEvent(s, p, e)
  {
    ReachableOk(s);
    assert LastIsExact(s, p);
    var i := LastReader(s, p);
    ExactIsTop(s, i, p);
  }
}
