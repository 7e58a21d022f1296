/** What every result handed to a voter, a reader or the event channel is worth. */
module VoteResults {
  import opened Tallies
  import opened Models
  import opened VoteProtocol
  import opened VoteLinks
  import opened VoteCounts

  function CurrentCounts(s: State, p: PollId): Counts
    requires p in s.created
  {
    RedisCounts(HashOf(s.redis, p), s.created[p])
  }

  /** A hash no rebuild has written holds no field but the poll's option IDs. */
  ghost predicate HashOk(s: State, p: PollId) {
    p !in s.rebuilt ==> HashOf(s.redis, p).Keys <= if p in s.created then Ids(s.created[p]) else {}
  }

  ghost predicate Bounded(s: State, p: PollId, counts: Counts) {
    forall o :: o in counts ==> 0 <= counts[o] <= Tally(s.accepted, MarkFor(p, o))
  }

  ghost predicate LogOk(s: State, entry: Snapshot) {
    && entry.poll in s.created
    && (entry.poll !in s.rebuilt ==>
          Below(entry.counts, CurrentCounts(s, entry.poll)) && Bounded(s, entry.poll, entry.counts))
  }

  ghost predicate Chained(s: State, d: Snapshot, e: Snapshot) {
    d.poll == e.poll && d.poll !in s.rebuilt ==> Below(d.counts, e.counts)
  }

  ghost predicate ResultOk(s: State, p: PollId, source: Source, counts: Counts) {
    match source
    case Unread => true
    case FromRedis(e) => e < |s.log| && s.log[e] == Snapshot(p, counts)
    case FromMongo => p in s.created && counts.Keys == Ids(s.created[p]) && Bounded(s, p, counts)
    case NoCounts => counts == map[] && p in s.lossy
  }

  /** A Cast whose increment was applied finds its own vote in what it read. */
  ghost predicate OwnVote(s: State, c: Cast) {
    HasInserted(c) && c.mark < |s.accepted| &&
    ((c.source.FromRedis? && !s.accepted[c.mark].inc.Lost? && c.poll !in s.rebuilt)
     || (c.source.FromMongo? && c.poll !in s.purged)) ==>
      c.option in c.counts && c.counts[c.option] >= 1
  }

  ghost predicate CastResultOk(s: State, c: Cast) {
    ResultOk(s, c.poll, c.source, c.counts) && OwnVote(s, c)
  }

  ghost predicate ReaderResultOk(s: State, r: Reader) { ResultOk(s, r.poll, r.source, r.counts) }

  ghost predicate Results(s: State) {
    && (forall p :: HashOk(s, p))
    && (forall e: nat :: e < |s.log| ==> LogOk(s, s.log[e]))
    && (forall d: nat, e: nat :: d < e < |s.log| ==> Chained(s, s.log[d], s.log[e]))
    && (forall i: nat :: i < |s.casts| ==> CastResultOk(s, s.casts[i]))
    && (forall j: nat :: j < |s.readers| ==> ReaderResultOk(s, s.readers[j]))
  }

  /** What every step guarantees to earlier results: counters only grow, histories only extend. */
  ghost predicate Advance(s: State, t: State) {
    && s.log <= t.log && s.rebuilt <= t.rebuilt && s.purged <= t.purged && s.lossy <= t.lossy
    && (forall p :: p in s.created ==> p in t.created && t.created[p] == s.created[p])
    && (forall p, o :: Tally(s.accepted, MarkFor(p, o)) <= Tally(t.accepted, MarkFor(p, o)))
    && (forall p :: p in s.created && p !in t.rebuilt ==> Below(CurrentCounts(s, p), CurrentCounts(t, p)))
  }

  /** `c` at its place in `t` is a Cast of `s` whose result is the same, or has no result. */
  ghost predicate SameResult(s: State, t: State, i: nat)
    requires i < |t.casts|
  {
    var c := t.casts[i];
    c.source.Unread? ||
    (i < |s.casts| && VoteOf(s.casts[i]) == VoteOf(c) && s.casts[i].source == c.source && s.casts[i].counts == c.counts
     && HasInserted(s.casts[i]) && s.casts[i].mark == c.mark
     && (c.mark < |t.accepted| ==> c.mark < |s.accepted| && s.accepted[c.mark].inc == t.accepted[c.mark].inc))
  }

  ghost predicate SameReader(s: State, t: State, j: nat)
    requires j < |t.readers|
  {
    j < |s.readers| && t.readers[j] == s.readers[j]
  }

  lemma OldResultKept(s: State, t: State, p: PollId, source: Source, counts: Counts)
    requires ResultOk(s, p, source, counts) && Advance(s, t)
    ensures ResultOk(t, p, source, counts)
  {
    if source.FromMongo? {
      forall o | o in counts ensures 0 <= counts[o] <= Tally(t.accepted, MarkFor(p, o)) {
        assert Tally(s.accepted, MarkFor(p, o)) <= Tally(t.accepted, MarkFor(p, o));
      }
    }
  }

  lemma OldLogKept(s: State, t: State, entry: Snapshot)
    requires LogOk(s, entry) && Advance(s, t)
    ensures LogOk(t, entry)
  {
    if entry.poll !in t.rebuilt {
      assert Below(CurrentCounts(s, entry.poll), CurrentCounts(t, entry.poll));
      forall o | o in entry.counts ensures 0 <= entry.counts[o] <= Tally(t.accepted, MarkFor(entry.poll, o)) {
        assert Tally(s.accepted, MarkFor(entry.poll, o)) <= Tally(t.accepted, MarkFor(entry.poll, o));
      }
    }
  }

  lemma OldCastKept(s: State, t: State, i: nat)
    requires Results(s) && Advance(s, t) && i < |t.casts| && SameResult(s, t, i)
    ensures CastResultOk(t, t.casts[i])
  {
    var c := t.casts[i];
    if !c.source.Unread? {
      assert CastResultOk(s, s.casts[i]);
      OldResultKept(s, t, c.poll, c.source, c.counts);
    }
  }

  /** Steps that add no entry to the read log. */
  lemma ResultsAdvance(s: State, t: State)
    requires Results(s) && Advance(s, t) && t.log == s.log
    requires forall p :: HashOk(t, p)
    requires forall i: nat :: i < |t.casts| ==> SameResult(s, t, i) || CastResultOk(t, t.casts[i])
    requires forall j: nat :: j < |t.readers| ==> SameReader(s, t, j) || ReaderResultOk(t, t.readers[j])
    ensures Results(t)
  {
    forall e: nat | e < |t.log| ensures LogOk(t, t.log[e]) { OldLogKept(s, t, t.log[e]); }
    forall d: nat, e: nat | d < e < |t.log| ensures Chained(t, t.log[d], t.log[e]) {
      assert Chained(s, s.log[d], s.log[e]);
    }
    forall i: nat | i < |t.casts| ensures CastResultOk(t, t.casts[i]) {
      if SameResult(s, t, i) { OldCastKept(s, t, i); }
    }
    forall j: nat | j < |t.readers| ensures ReaderResultOk(t, t.readers[j]) {
      var r := t.readers[j];
      if SameReader(s, t, j) { OldResultKept(s, t, r.poll, r.source, r.counts); }
    }
  }

  /** Steps that add one: the entry is the counters as they stand. */
  lemma ResultsLogged(s: State, t: State, p: PollId)
    requires Results(s) && Numbers(s) && p in s.created && Quiet(s, t) && t.created == s.created && t.lossy == s.lossy
    requires t.log == s.log + [Snapshot(p, CurrentCounts(s, p))]
    requires forall i: nat :: i < |t.casts| ==> SameResult(s, t, i) || CastResultOk(t, t.casts[i])
    requires forall j: nat :: j < |t.readers| ==> SameReader(s, t, j) || ReaderResultOk(t, t.readers[j])
    ensures Results(t)
  {
    var entry := Snapshot(p, CurrentCounts(s, p));
    if p !in s.rebuilt { CurrentBounded(s, p); }
    forall q | q in s.created ensures CurrentCounts(t, q) == CurrentCounts(s, q) {}
    assert Advance(s, t);
    forall q ensures HashOk(t, q) { assert HashOk(s, q); }
    forall e: nat | e < |t.log| ensures LogOk(t, t.log[e]) {
      if e < |s.log| { OldLogKept(s, t, s.log[e]); }
    }
    forall d: nat, e: nat | d < e < |t.log| ensures Chained(t, t.log[d], t.log[e]) {
      if e < |s.log| { assert Chained(s, s.log[d], s.log[e]); } else { assert LogOk(s, s.log[d]); }
    }
    forall i: nat | i < |t.casts| ensures CastResultOk(t, t.casts[i]) {
      if SameResult(s, t, i) { OldCastKept(s, t, i); }
    }
    forall j: nat | j < |t.readers| ensures ReaderResultOk(t, t.readers[j]) {
      var r := t.readers[j];
      if SameReader(s, t, j) { OldResultKept(s, t, r.poll, r.source, r.counts); }
    }
  }

  lemma CurrentBounded(s: State, p: PollId)
    requires Numbers(s) && p in s.created && p !in s.rebuilt
    ensures Bounded(s, p, CurrentCounts(s, p))
  {
    forall o | o in CurrentCounts(s, p)
      ensures 0 <= CurrentCounts(s, p)[o] <= Tally(s.accepted, MarkFor(p, o))
    {
      assert CounterOk(s, p, o);
      TallyLe(s.accepted, AppliedAfter(p, o, 0), MarkFor(p, o));
    }
  }

  /** Steps that change neither the counters nor the inserts. */
  lemma StillAdvance(s: State, t: State)
    requires t.redis == s.redis && t.accepted == s.accepted && t.rebuilt == s.rebuilt
    requires s.log <= t.log && s.purged <= t.purged && s.lossy <= t.lossy
    requires forall p :: p in s.created ==> p in t.created && t.created[p] == s.created[p]
    requires forall p :: HashOk(s, p)
    ensures Advance(s, t) && forall p :: HashOk(t, p)
  {
    forall p ensures HashOk(t, p) { assert HashOk(s, p); }
  }

  lemma AllCastsSame(s: State, t: State)
    requires Links(s) && t.casts == s.casts && t.accepted == s.accepted
    ensures forall i: nat :: i < |t.casts| ==> SameResult(s, t, i)
  {
    forall i: nat | i < |t.casts| ensures SameResult(s, t, i) { assert CastOk(s, i, s.casts[i]); }
  }

  lemma OtherCastsSame(s: State, t: State, i: nat)
    requires Links(s) && i < |s.casts| == |t.casts| && t.casts == s.casts[i := t.casts[i]]
    requires s.accepted <= t.accepted
    ensures forall j: nat :: j < |t.casts| && j != i ==> SameResult(s, t, j)
  {
    forall j: nat | j < |t.casts| && j != i ensures SameResult(s, t, j) { assert CastOk(s, j, s.casts[j]); }
  }

  lemma InsertAdvances(s: State, t: State, m: Mark)
    requires Results(s) && t.accepted == s.accepted + [m]
    requires t.redis == s.redis && t.rebuilt == s.rebuilt && t.created == s.created
    requires t.log == s.log && t.purged == s.purged && t.lossy == s.lossy
    ensures Advance(s, t) && forall p :: HashOk(t, p)
  {
    forall p, o ensures Tally(s.accepted, MarkFor(p, o)) <= Tally(t.accepted, MarkFor(p, o)) {
      TallyPush(s.accepted, m, MarkFor(p, o));
    }
    forall p ensures HashOk(t, p) { assert HashOk(s, p); }
  }

  lemma InsertKeepsResults(s: State, i: nat, ok: bool)
    requires Links(s) && Results(s) && i < |s.casts| && s.casts[i].pc.NotVoted?
    ensures Results(Insert(s, i, ok))
  {
    var t := Insert(s, i, ok);
    assert CastOk(s, i, s.casts[i]);
    OtherCastsSame(s, t, i);
    if |t.accepted| == |s.accepted| {
      StillAdvance(s, t);
    } else {
      InsertAdvances(s, t, t.accepted[|s.accepted|]);
    }
    ResultsAdvance(s, t);
  }

  lemma IncrGrows(redis: map<PollId, Counts>, p: PollId, o: OptionId, q: PollId, options: seq<PollOption>)
    requires p == q ==> o in Ids(options)
    ensures Below(RedisCounts(HashOf(redis, q), options), RedisCounts(HashOf(HIncr(redis, p, o), q), options))
  {
  }

  lemma IncreaseAdvances(s: State, t: State, k: nat, inc: Increment, p: PollId, o: OptionId)
    requires Results(s) && k < |s.accepted| && t.accepted == s.accepted[k := s.accepted[k].(inc := inc)]
    requires p in s.created && o in Ids(s.created[p])
    requires t.redis == (if inc.Applied? then HIncr(s.redis, p, o) else s.redis)
    requires t.rebuilt == s.rebuilt && t.created == s.created
    requires t.log == s.log && t.purged == s.purged && s.lossy <= t.lossy
    ensures Advance(s, t) && forall q :: HashOk(t, q)
  {
    forall q, f ensures Tally(s.accepted, MarkFor(q, f)) <= Tally(t.accepted, MarkFor(q, f)) {
      TallySet(s.accepted, k, t.accepted[k], MarkFor(q, f));
    }
    forall q | q in s.created ensures Below(CurrentCounts(s, q), CurrentCounts(t, q)) {
      IncrGrows(s.redis, p, o, q, s.created[q]);
    }
    forall q ensures HashOk(t, q) { assert HashOk(s, q); }
  }

  lemma IncreaseKeepsResults(s: State, i: nat, ok: bool)
    requires Links(s) && Results(s) && i < |s.casts| && s.casts[i].pc.Inserted?
    ensures Results(Increase(s, i, ok))
  {
    var c, t := s.casts[i], Increase(s, i, ok);
    assert CastOk(s, i, c) && MarkOk(s, c.mark, s.accepted[c.mark]);
    IncreaseAdvances(s, t, c.mark, t.accepted[c.mark].inc, c.poll, c.option);
    forall j: nat | j < |t.casts| ensures SameResult(s, t, j) {
      assert CastOk(s, j, s.casts[j]) && CastOk(s, i, s.casts[i]);
    }
    ResultsAdvance(s, t);
  }

  /** The counter holds the Cast's own increment. */
  lemma OwnIncrementCounted(s: State, i: nat)
    requires Links(s) && Numbers(s) && i < |s.casts| && s.casts[i].pc.Incremented?
    requires !s.accepted[s.casts[i].mark].inc.Lost? && s.casts[i].poll !in s.rebuilt
    ensures Counter(s, s.casts[i].poll, s.casts[i].option) >= 1
  {
    var c := s.casts[i];
    assert CastOk(s, i, c) && MarkOk(s, c.mark, s.accepted[c.mark]);
    assert CounterOk(s, c.poll, c.option);
    assert AppliedAfter(c.poll, c.option, 0)(s.accepted[c.mark]);
    TallyZero(s.accepted, AppliedAfter(c.poll, c.option, 0));
  }

  lemma ReadRedisKeepsResults(s: State, i: nat, ok: bool)
    requires Links(s) && Numbers(s) && Results(s) && i < |s.casts| && s.casts[i].pc.Incremented?
    ensures Results(ReadRedis(s, i, ok))
  {
    var c, t := s.casts[i], ReadRedis(s, i, ok);
    assert CastOk(s, i, c) && MarkOk(s, c.mark, s.accepted[c.mark]);
    OtherCastsSame(s, t, i);
    if ok {
      if !s.accepted[c.mark].inc.Lost? && c.poll !in s.rebuilt { OwnIncrementCounted(s, i); }
      ResultsLogged(s, t, c.poll);
    } else {
      StillAdvance(s, t);
      ResultsAdvance(s, t);
    }
  }

  lemma MongoCountsBounded(s: State, p: PollId)
    requires Numbers(s) && p in s.created
    ensures Bounded(s, p, MongoCounts(s.votes, p, s.created[p]))
    ensures p !in s.purged ==> forall o :: o in Ids(s.created[p]) ==>
              MongoCounts(s.votes, p, s.created[p])[o] == Tally(s.accepted, MarkFor(p, o))
  {
    forall o | o in Ids(s.created[p])
      ensures 0 <= MongoCounts(s.votes, p, s.created[p])[o] <= Tally(s.accepted, MarkFor(p, o))
      ensures p !in s.purged ==> MongoCounts(s.votes, p, s.created[p])[o] == Tally(s.accepted, MarkFor(p, o))
    {
      CountByOptionIs(s.votes, p, o);
      assert MongoOk(s, p, o);
    }
  }

  lemma OwnInsertCounted(s: State, i: nat)
    requires Links(s) && i < |s.casts| && HasInserted(s.casts[i])
    ensures Tally(s.accepted, MarkFor(s.casts[i].poll, s.casts[i].option)) >= 1
  {
    var c := s.casts[i];
    assert CastOk(s, i, c) && MarkOk(s, c.mark, s.accepted[c.mark]);
    assert MarkFor(c.poll, c.option)(s.accepted[c.mark]);
    TallyZero(s.accepted, MarkFor(c.poll, c.option));
  }

  lemma ReadMongoKeepsResults(s: State, i: nat, ok: bool)
    requires Links(s) && Numbers(s) && Results(s) && i < |s.casts| && s.casts[i].pc.Fallback?
    ensures Results(ReadMongo(s, i, ok))
  {
    var c, t := s.casts[i], ReadMongo(s, i, ok);
    assert CastOk(s, i, c);
    OtherCastsSame(s, t, i);
    StillAdvance(s, t);
    if ok {
      MongoCountsBounded(s, c.poll);
      OwnInsertCounted(s, i);
    }
    assert CastResultOk(t, t.casts[i]);
    ResultsAdvance(s, t);
  }

  lemma CheckKeepsResults(s: State, i: nat, ok: bool)
    requires Links(s) && Results(s) && i < |s.casts| && (s.casts[i].pc.Started? || s.casts[i].pc.PollRead?)
    ensures Results(StepCast(s, i, ok))
  {
    var t := StepCast(s, i, ok);
    assert CastOk(s, i, s.casts[i]);
    OtherCastsSame(s, t, i);
    StillAdvance(s, t);
    ResultsAdvance(s, t);
  }

  lemma PublishKeepsResults(s: State, i: nat, ok: bool)
    requires Links(s) && Results(s) && i < |s.casts| && s.casts[i].pc.Counted?
    ensures Results(Publish(s, i, ok))
  {
    var t := Publish(s, i, ok);
    assert CastOk(s, i, s.casts[i]);
    OtherCastsSame(s, t, i);
    StillAdvance(s, t);
    ResultsAdvance(s, t);
  }

  lemma CastStepKeepsResults(s: State, i: nat, ok: bool)
    requires Links(s) && Numbers(s) && Results(s) && i < |s.casts|
    ensures Results(StepCast(s, i, ok))
  {
    match s.casts[i].pc {
      case Started => CheckKeepsResults(s, i, ok);
      case PollRead => CheckKeepsResults(s, i, ok);
      case NotVoted => InsertKeepsResults(s, i, ok);
      case Inserted => IncreaseKeepsResults(s, i, ok);
      case Incremented => ReadRedisKeepsResults(s, i, ok);
      case Fallback => ReadMongoKeepsResults(s, i, ok);
      case Counted => PublishKeepsResults(s, i, ok);
      case Accepted =>
      case Rejected(_) =>
    }
  }

  lemma ReaderStepKeepsResults(s: State, j: nat, ok: bool)
    requires Links(s) && Numbers(s) && Results(s) && j < |s.readers|
    ensures Results(StepReader(s, j, ok))
  {
    var r, t := s.readers[j], StepReader(s, j, ok);
    assert ReaderOk(s, r) && ReaderResultOk(s, r);
    match r.pc {
      case Asked => ReaderMoves(s, t, j);
      case Found =>
        if ok {
          AllCastsSame(s, t);
          ResultsLogged(s, t, r.poll);
        } else {
          ReaderMoves(s, t, j);
        }
      case Missed =>
        if ok { MongoCountsBounded(s, r.poll); }
        ReaderMoves(s, t, j);
      case Answered =>
      case Failed =>
    }
  }

  lemma ReaderMoves(s: State, t: State, j: nat)
    requires Links(s) && Results(s) && j < |s.readers| == |t.readers| && t.readers == s.readers[j := t.readers[j]]
    requires t.redis == s.redis && t.accepted == s.accepted && t.rebuilt == s.rebuilt && t.casts == s.casts
    requires t.log == s.log && t.purged == s.purged && t.lossy == s.lossy && t.created == s.created
    requires ReaderResultOk(t, t.readers[j])
    ensures Results(t)
  {
    AllCastsSame(s, t);
    StillAdvance(s, t);
    assert forall h: nat :: h < |t.readers| && h != j ==> SameReader(s, t, h);
    ResultsAdvance(s, t);
  }

  /** Steps of the poll and rebuild calls: they read and publish nothing. */
  lemma OtherStepKeepsResults(s: State, t: State)
    requires Links(s) && Results(s) && t.accepted == s.accepted && t.log == s.log && t.lossy == s.lossy
    requires t.casts == s.casts && t.readers == s.readers && s.rebuilt <= t.rebuilt && s.purged <= t.purged
    requires forall p :: p in s.created ==> p in t.created && t.created[p] == s.created[p]
    requires forall p :: p !in t.rebuilt ==> HashOf(t.redis, p) == HashOf(s.redis, p)
    ensures Results(t)
  {
    forall p ensures HashOk(t, p) { assert HashOk(s, p); }
    AllCastsSame(s, t);
    assert forall j: nat :: j < |t.readers| ==> SameReader(s, t, j);
    ResultsAdvance(s, t);
  }

  lemma AdminStepKeepsResults(s: State, k: nat, ok: bool)
    requires Links(s) && Results(s) && k < |s.admins|
    ensures Results(StepAdmin(s, k, ok))
  {
    match s.admins[k].pc {
      case Looking => OtherStepKeepsResults(s, WithAdmin(s, k, FindForAdmin(s, s.admins[k], ok)));
      case Purging => OtherStepKeepsResults(s, Purge(s, k, ok));
      case Writing => OtherStepKeepsResults(s, Write(s, k, ok));
      case ReadingBack => OtherStepKeepsResults(s, WithAdmin(s, k, if ok then Done else Refused));
      case Done =>
      case Refused =>
    }
  }

  lemma SetKeepsResults(s: State, r: nat, ok: bool)
    requires Links(s) && Results(s) && r < |s.rebuilds|
    requires s.rebuilds[r].pc.Setting? && s.rebuilds[r].pc.next < |s.rebuilds[r].options|
    ensures Results(SetField(s, r, ok))
  {
    OtherStepKeepsResults(s, SetField(s, r, ok));
  }

  lemma RebuildStepKeepsResults(s: State, r: nat, ok: bool)
    requires Links(s) && Results(s) && r < |s.rebuilds|
    ensures Results(StepRebuild(s, r, ok))
  {
    match s.rebuilds[r].pc {
      case Snapshotting => OtherStepKeepsResults(s, TakeSnapshot(s, r, ok));
      case Deleting => OtherStepKeepsResults(s, DeleteHash(s, r, ok));
      case Setting(next) => if next < |s.rebuilds[r].options| { SetKeepsResults(s, r, ok); }
      case Ended =>
    }
  }

  lemma BeginKeepsResults(s: State, t: State)
    requires Links(s) && Results(s) && s.casts <= t.casts && s.readers <= t.readers
    requires t.redis == s.redis && t.accepted == s.accepted && t.rebuilt == s.rebuilt
    requires t.log == s.log && t.purged == s.purged && t.lossy == s.lossy && t.created == s.created
    requires forall i: nat :: |s.casts| <= i < |t.casts| ==> t.casts[i].source.Unread?
    requires forall j: nat :: |s.readers| <= j < |t.readers| ==> t.readers[j].source.Unread?
    ensures Results(t)
  {
    forall i: nat | i < |t.casts| ensures SameResult(s, t, i) {
      if i < |s.casts| { assert CastOk(s, i, s.casts[i]); }
    }
    forall j: nat | j < |t.readers| ensures SameReader(s, t, j) || ReaderResultOk(t, t.readers[j]) {}
    StillAdvance(s, t);
    ResultsAdvance(s, t);
  }

  lemma StartKeepsResults(s: State, a: Step)
    requires Links(s) && Numbers(s) && Results(s)
    requires a.BeginCast? || a.BeginResults? || a.CreatePoll?
    ensures Results(Apply(s, a))
  {
    match a {
      case CreatePoll(id, poll) => OtherStepKeepsResults(s, Create(s, id, poll));
      case BeginCast(p, o, t) => BeginKeepsResults(s, StartCast(s, p, o, t));
      case BeginResults(p) => BeginKeepsResults(s, StartReader(s, p));
    }
  }

  lemma StartOtherKeepsResults(s: State, a: Step)
    requires Links(s) && Numbers(s) && Results(s)
    requires a.BeginAdmin? || a.BeginRebuild?
    ensures Results(Apply(s, a))
  {
    match a {
      case BeginAdmin(kind, p, user) => OtherStepKeepsResults(s, StartAdmin(s, kind, p, user));
      case BeginRebuild(p, options) => OtherStepKeepsResults(s, StartRebuild(s, p, options));
    }
  }

  lemma {:induction false} StepKeepsResults(s: State, a: Step)
    requires Links(s) && Numbers(s) && Results(s)
    ensures Results(Apply(s, a))
  {
    match a {
      case CreatePoll(_, _) => StartKeepsResults(s, a);
      case BeginCast(_, _, _) => StartKeepsResults(s, a);
      case BeginResults(_) => StartKeepsResults(s, a);
      case BeginAdmin(_, _, _) => StartOtherKeepsResults(s, a);
      case BeginRebuild(_, _) => StartOtherKeepsResults(s, a);
      case CastStep(i, ok) => if i < |s.casts| { CastStepKeepsResults(s, i, ok); }
      case ResultsStep(j, ok) => if j < |s.readers| { ReaderStepKeepsResults(s, j, ok); }
      case AdminStep(k, ok) => if k < |s.admins| { AdminStepKeepsResults(s, k, ok); }
      case RebuildStep(r, ok) => if r < |s.rebuilds| { RebuildStepKeepsResults(s, r, ok); }
    }
  }
}
