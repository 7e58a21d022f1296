/** What ties the calls, the stores and the history together in every reachable state. */
module VoteLinks {
  import opened Tallies
  import opened Models
  import opened VoteProtocol

  predicate HasCounts(c: Cast) { c.pc.Counted? || c.pc.Accepted? }

  predicate HasInserted(c: Cast) { c.pc.Inserted? || c.pc.Incremented? || c.pc.Fallback? || HasCounts(c) }

  /** The call has read its poll as active and has not tried its insert yet. */
  predicate MayInsert(c: Cast) { c.pc.PollRead? || c.pc.NotVoted? }

  ghost predicate OptionsKnown(s: State, p: PollId, options: seq<PollOption>) {
    p in s.created && options == s.created[p]
  }

  ghost predicate CastOk(s: State, i: nat, c: Cast) {
    && (MayInsert(c) || HasInserted(c) ==>
          OptionsKnown(s, c.poll, c.options) && c.option in Ids(c.options))
    && (HasInserted(c) ==>
          && c.mark < |s.accepted| && s.accepted[c.mark].caster == i
          && (s.accepted[c.mark].inc.Pending? <==> c.pc.Inserted?))
    && (HasCounts(c) <==> !c.source.Unread?)
  }

  ghost predicate MarkOk(s: State, k: nat, m: Mark) {
    && m.caster < |s.casts| && HasInserted(s.casts[m.caster])
    && s.casts[m.caster].mark == k && m.vote == VoteOf(s.casts[m.caster])
    && 0 < m.at < s.clock
    && (m.inc.Applied? ==> m.at < m.inc.at < s.clock)
    && (m.inc.Lost? ==> m.vote.poll in s.lossy)
  }

  ghost predicate ReaderOk(s: State, r: Reader) {
    && (r.pc.Found? || r.pc.Missed? || r.pc.Answered? ==> OptionsKnown(s, r.poll, r.options))
    && (r.pc.Answered? <==> !r.source.Unread?)
  }

  ghost predicate Links(s: State) {
    && s.clock > 0
    && (forall p :: p in s.polls ==> OptionsKnown(s, p, s.polls[p].options))
    && (forall i: nat :: i < |s.casts| ==> CastOk(s, i, s.casts[i]))
    && (forall k: nat :: k < |s.accepted| ==> MarkOk(s, k, s.accepted[k]))
    && (forall j: nat :: j < |s.readers| ==> ReaderOk(s, s.readers[j]))
  }

  /** Steps that leave the calls of `Cast` and `GetResults` alone. */
  lemma LinksFrame(s: State, t: State)
    requires Links(s)
    requires t.casts == s.casts && t.accepted == s.accepted && t.readers == s.readers
    requires s.clock <= t.clock && s.lossy <= t.lossy
    requires forall p :: p in s.created ==> p in t.created && t.created[p] == s.created[p]
    requires forall p :: p in t.polls ==> OptionsKnown(t, p, t.polls[p].options)
    ensures Links(t)
  {
    forall j: nat | j < |t.readers| ensures ReaderOk(t, t.readers[j]) { assert ReaderOk(s, s.readers[j]); }
  }

  /** Steps that move one Cast without inserting or incrementing. */
  lemma LinksCast(s: State, t: State, i: nat)
    requires Links(s) && i < |s.casts| == |t.casts| && t.casts == s.casts[i := t.casts[i]]
    requires t.polls == s.polls && t.created == s.created
    requires t.accepted == s.accepted && t.readers == s.readers && s.clock <= t.clock && s.lossy <= t.lossy
    requires HasInserted(t.casts[i]) == HasInserted(s.casts[i])
    requires VoteOf(t.casts[i]) == VoteOf(s.casts[i]) && t.casts[i].mark == s.casts[i].mark
    requires CastOk(t, i, t.casts[i])
    ensures Links(t)
  {
    forall j: nat | j < |t.casts| ensures CastOk(t, j, t.casts[j]) { assert CastOk(s, j, s.casts[j]); }
    forall j: nat | j < |t.readers| ensures ReaderOk(t, t.readers[j]) { assert ReaderOk(s, s.readers[j]); }
  }

  lemma LinksReader(s: State, t: State, j: nat)
    requires Links(s) && j < |s.readers| == |t.readers| && t.readers == s.readers[j := t.readers[j]]
    requires t.polls == s.polls && t.created == s.created && t.casts == s.casts
    requires t.accepted == s.accepted && s.clock <= t.clock && t.lossy == s.lossy
    requires ReaderOk(t, t.readers[j])
    ensures Links(t)
  {
    forall h: nat | h < |t.readers| ensures ReaderOk(t, t.readers[h]) { assert ReaderOk(s, s.readers[h]); }
  }

  lemma AddedKeepsLinks(s: State, t: State, i: nat)
    requires Links(s) && i < |s.casts| && s.casts[i].pc.NotVoted?
    requires t.casts == s.casts[i := s.casts[i].(pc := Inserted, mark := |s.accepted|)]
    requires t.accepted == s.accepted + [Mark(VoteOf(s.casts[i]), i, s.clock, Pending)]
    requires t.polls == s.polls && t.created == s.created && t.readers == s.readers
    requires s.clock < t.clock && t.lossy == s.lossy
    ensures Links(t)
  {
    assert CastOk(s, i, s.casts[i]);
    forall j: nat | j < |t.casts| ensures CastOk(t, j, t.casts[j]) { assert CastOk(s, j, s.casts[j]); }
    forall k: nat | k < |t.accepted| ensures MarkOk(t, k, t.accepted[k]) {
      assert k < |s.accepted| ==> MarkOk(s, k, s.accepted[k]);
    }
    forall j: nat | j < |t.readers| ensures ReaderOk(t, t.readers[j]) { assert ReaderOk(s, s.readers[j]); }
  }

  lemma InsertKeepsLinks(s: State, i: nat, ok: bool)
    requires Links(s) && i < |s.casts| && s.casts[i].pc.NotVoted?
    ensures Links(Insert(s, i, ok))
  {
    var t := Insert(s, i, ok);
    if |t.accepted| == |s.accepted| {
      assert CastOk(s, i, s.casts[i]);
      LinksCast(s, t, i);
    } else {
      AddedKeepsLinks(s, t, i);
    }
  }

  lemma IncreaseKeepsLinks(s: State, i: nat, ok: bool)
    requires Links(s) && i < |s.casts| && s.casts[i].pc.Inserted?
    ensures Links(Increase(s, i, ok))
  {
    var t := Increase(s, i, ok);
    assert CastOk(s, i, s.casts[i]);
    forall j: nat | j < |t.casts| ensures CastOk(t, j, t.casts[j]) { assert CastOk(s, j, s.casts[j]); }
    forall k: nat | k < |t.accepted| ensures MarkOk(t, k, t.accepted[k]) {
      assert MarkOk(s, k, s.accepted[k]);
      assert MarkOk(s, s.casts[i].mark, s.accepted[s.casts[i].mark]);
    }
    forall j: nat | j < |t.readers| ensures ReaderOk(t, t.readers[j]) { assert ReaderOk(s, s.readers[j]); }
  }

  lemma CheckKeepsLinks(s: State, i: nat, ok: bool)
    requires Links(s) && i < |s.casts| && (s.casts[i].pc.Started? || s.casts[i].pc.PollRead?)
    ensures Links(StepCast(s, i, ok))
  {
    var c := s.casts[i];
    assert CastOk(s, i, c);
    if c.pc.Started? {
      LinksCast(s, WithCast(s, i, FindForCast(s, c, ok)), i);
    } else {
      LinksCast(s, WithCast(s, i, CheckVoted(s, c, ok)), i);
    }
  }

  lemma PublishKeepsLinks(s: State, i: nat, ok: bool)
    requires Links(s) && i < |s.casts| && s.casts[i].pc.Counted?
    ensures Links(StepCast(s, i, ok))
  {
    assert CastOk(s, i, s.casts[i]);
    LinksCast(s, Publish(s, i, ok), i);
  }

  lemma ReadKeepsLinks(s: State, i: nat, ok: bool)
    requires Links(s) && i < |s.casts|
    requires s.casts[i].pc.Incremented? || s.casts[i].pc.Fallback?
    ensures Links(StepCast(s, i, ok))
  {
    var c := s.casts[i];
    assert CastOk(s, i, c);
    match c.pc {
      case Incremented => LinksCast(s, ReadRedis(s, i, ok), i);
      case Fallback => LinksCast(s, ReadMongo(s, i, ok), i);
    }
  }

  lemma CastStepKeepsLinks(s: State, i: nat, ok: bool)
    requires Links(s) && i < |s.casts|
    ensures Links(StepCast(s, i, ok))
  {
    match s.casts[i].pc {
      case Started => CheckKeepsLinks(s, i, ok);
      case PollRead => CheckKeepsLinks(s, i, ok);
      case NotVoted => InsertKeepsLinks(s, i, ok);
      case Inserted => IncreaseKeepsLinks(s, i, ok);
      case Incremented => ReadKeepsLinks(s, i, ok);
      case Fallback => ReadKeepsLinks(s, i, ok);
      case Counted => PublishKeepsLinks(s, i, ok);
      case Accepted =>
      case Rejected(_) =>
    }
  }

  lemma ReaderStepKeepsLinks(s: State, j: nat, ok: bool)
    requires Links(s) && j < |s.readers|
    ensures Links(StepReader(s, j, ok))
  {
    assert ReaderOk(s, s.readers[j]);
    LinksReader(s, StepReader(s, j, ok), j);
  }

  lemma BeginKeepsLinks(s: State, t: State)
    requires Links(s) && t.polls == s.polls && t.created == s.created && t.accepted == s.accepted
    requires t.lossy == s.lossy && s.clock <= t.clock
    requires s.casts <= t.casts && s.readers <= t.readers
    requires forall i: nat :: |s.casts| <= i < |t.casts| ==> t.casts[i].pc.Started? || t.casts[i].pc.Rejected?
    requires forall i: nat :: |s.casts| <= i < |t.casts| ==> t.casts[i].source.Unread?
    requires forall j: nat :: |s.readers| <= j < |t.readers| ==> t.readers[j].pc.Asked? && t.readers[j].source.Unread?
    ensures Links(t)
  {
    forall i: nat | i < |t.casts| ensures CastOk(t, i, t.casts[i]) {
      if i < |s.casts| { assert CastOk(s, i, s.casts[i]); }
    }
    forall j: nat | j < |t.readers| ensures ReaderOk(t, t.readers[j]) {
      if j < |s.readers| { assert ReaderOk(s, s.readers[j]); }
    }
  }

  lemma AdminStepKeepsLinks(s: State, k: nat, ok: bool)
    requires Links(s) && k < |s.admins|
    ensures Links(StepAdmin(s, k, ok))
  {
    match s.admins[k].pc {
      case Looking => LinksFrame(s, WithAdmin(s, k, FindForAdmin(s, s.admins[k], ok)));
      case Purging => LinksFrame(s, Purge(s, k, ok));
      case Writing => LinksFrame(s, Write(s, k, ok));
      case ReadingBack => LinksFrame(s, WithAdmin(s, k, if ok then Done else Refused));
      case Done =>
      case Refused =>
    }
  }

  lemma RebuildStepKeepsLinks(s: State, r: nat, ok: bool)
    requires Links(s) && r < |s.rebuilds|
    ensures Links(StepRebuild(s, r, ok))
  {
    match s.rebuilds[r].pc {
      case Snapshotting => LinksFrame(s, TakeSnapshot(s, r, ok));
      case Deleting => LinksFrame(s, DeleteHash(s, r, ok));
      case Setting(next) => if next < |s.rebuilds[r].options| { LinksFrame(s, SetField(s, r, ok)); }
      case Ended =>
    }
  }

  lemma {:induction false} StepKeepsLinks(s: State, a: Step)
    requires Links(s)
    ensures Links(Apply(s, a))
  {
    match a {
      case CreatePoll(id, poll) => LinksFrame(s, Create(s, id, poll));
      case BeginCast(p, o, t) => BeginKeepsLinks(s, StartCast(s, p, o, t));
      case CastStep(i, ok) => if i < |s.casts| { CastStepKeepsLinks(s, i, ok); }
      case BeginResults(p) => BeginKeepsLinks(s, StartReader(s, p));
      case ResultsStep(j, ok) => if j < |s.readers| { ReaderStepKeepsLinks(s, j, ok); }
      case BeginAdmin(kind, p, user) => LinksFrame(s, StartAdmin(s, kind, p, user));
      case AdminStep(k, ok) => if k < |s.admins| { AdminStepKeepsLinks(s, k, ok); }
      case BeginRebuild(p, options) => LinksFrame(s, StartRebuild(s, p, options));
      case RebuildStep(r, ok) => if r < |s.rebuilds| { RebuildStepKeepsLinks(s, r, ok); }
    }
  }
}
