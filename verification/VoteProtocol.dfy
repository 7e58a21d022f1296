/** The vote protocol as a state machine.

    Every step is one command sent to MongoDB or Redis by one of the calls in flight: `Cast`,
    `GetResults`, `Update`, `Close`, `Delete` and `InitRedisCounters`. A run is any sequence of steps,
    so it covers every interleaving of any number of calls. The `ok` flag of a step says whether the
    command succeeded; a step whose call is not at that point leaves the state as it is. */
module VoteProtocol {
  import opened Tallies
  import opened Models

  datatype CastError = InvalidVoterToken | PollNotFound | PollClosed | OptionNotFound | AlreadyVoted
                     | DuplicateKey | StoreError

  datatype CastPc = Started | PollRead | NotVoted | Inserted | Incremented | Fallback | Counted
                  | Accepted | Rejected(error: CastError)

  /** Where a result's counts came from; `FromRedis` names the entry of the read log. */
  datatype Source = Unread | FromRedis(entry: nat) | FromMongo | NoCounts

  datatype Cast = Cast(poll: PollId, option: OptionId, token: Token, pc: CastPc,
                       options: seq<PollOption>, mark: nat, source: Source, counts: Counts)

  datatype ReaderPc = Asked | Found | Missed | Answered | Failed

  datatype Reader = Reader(poll: PollId, pc: ReaderPc, options: seq<PollOption>, source: Source, counts: Counts)

  datatype AdminKind = UpdatePoll(title: Option<string>, description: Option<string>) | ClosePoll | DeletePoll

  datatype AdminPc = Looking | Purging | Writing | ReadingBack | Done | Refused

  datatype Admin = Admin(kind: AdminKind, poll: PollId, user: string, pc: AdminPc)

  datatype RebuildPc = Snapshotting | Deleting | Setting(next: nat) | Ended

  datatype Rebuild = Rebuild(poll: PollId, options: seq<PollOption>, pc: RebuildPc, snapAt: nat, snap: Counts)

  /** History: what became of the HINCRBY of an inserted vote, and when. */
  datatype Increment = Pending | Applied(at: nat) | Lost

  /** History: one successful insert, the Cast that made it and the time it happened. */
  datatype Mark = Mark(vote: Vote, caster: nat, at: nat, inc: Increment)

  /** History: one successful HGETALL. */
  datatype Snapshot = Snapshot(poll: PollId, counts: Counts)

  /** History: the value last written to one hash field by a rebuild, with the times of the
      aggregate it came from and of the write. */
  datatype Base = Base(value: int, snapAt: nat, setAt: nat)

  datatype PollBase = PollBase(delAt: nat, sets: map<OptionId, Base>)

  datatype State = State(
    // the stores
    polls: map<PollId, Poll>,
    votes: seq<Vote>,
    redis: map<PollId, Counts>,
    published: seq<Event>,
    // the calls
    casts: seq<Cast>,
    readers: seq<Reader>,
    admins: seq<Admin>,
    rebuilds: seq<Rebuild>,
    // history, read by no step
    clock: nat,
    created: map<PollId, seq<PollOption>>,  // the options each poll was created with
    accepted: seq<Mark>,                    // successful inserts
    log: seq<Snapshot>,                     // successful HGETALLs
    bases: map<PollId, PollBase>,           // last rebuild writes
    rebuilt: set<PollId>,                   // polls whose hash a rebuild has written
    purged: set<PollId>,                    // polls whose votes Delete has removed
    lossy: set<PollId>)                     // polls that lost an increment, both reads of a Cast, or a publish

  ghost function Init(): State {
    State(map[], [], map[], [], [], [], [], [], 1, map[], [], [], map[], {}, {}, {})
  }

  // ---- the commands -------------------------------------------------------------------------

  function VoteFor(p: PollId, o: OptionId): Vote -> bool { (v: Vote) => v.poll == p && v.option == o }

  function OnPoll(p: PollId): Vote -> bool { (v: Vote) => v.poll == p }

  function OffPoll(p: PollId): Vote -> bool { (v: Vote) => v.poll != p }

  /** The unique (pollId, voterToken) key is taken. */
  predicate HasVoted(votes: seq<Vote>, p: PollId, t: Token) {
    exists v :: v in votes && v.poll == p && v.token == t
  }

  function VotesFor(votes: seq<Vote>, p: PollId, o: OptionId): nat { Tally(votes, VoteFor(p, o)) }

  /** The aggregate grouped by option: one entry per option that has a vote. */
  function CountByOption(votes: seq<Vote>, p: PollId): Counts {
    map o | o in (set v | v in votes && v.poll == p :: v.option) :: VotesFor(votes, p, o)
  }

  function MongoCounts(votes: seq<Vote>, p: PollId, options: seq<PollOption>): Counts {
    map o | o in Ids(options) :: Lookup(CountByOption(votes, p), o)
  }

  function HashOf(redis: map<PollId, Counts>, p: PollId): Counts {
    if p in redis then redis[p] else map[]
  }

  function RedisCounts(hash: Counts, options: seq<PollOption>): Counts {
    (map o | o in Ids(options) :: 0) + hash
  }

  function HSet(redis: map<PollId, Counts>, p: PollId, o: OptionId, value: int): map<PollId, Counts> {
    redis[p := HashOf(redis, p)[o := value]]
  }

  function HIncr(redis: map<PollId, Counts>, p: PollId, o: OptionId): map<PollId, Counts> {
    HSet(redis, p, o, Lookup(HashOf(redis, p), o) + 1)
  }

  // ---- the steps ----------------------------------------------------------------------------

  /** A call starts, or the call with the given index sends its next command. */
  datatype Step =
    | CreatePoll(id: PollId, poll: Poll)
    | BeginCast(pollId: PollId, option: OptionId, token: Token)
    | CastStep(i: nat, ok: bool)
    | BeginResults(pollId: PollId)
    | ResultsStep(j: nat, ok: bool)
    | BeginAdmin(kind: AdminKind, pollId: PollId, user: string)
    | AdminStep(k: nat, ok: bool)
    | BeginRebuild(pollId: PollId, options: seq<PollOption>)
    | RebuildStep(r: nat, ok: bool)

  function Reject(c: Cast, e: CastError): Cast { c.(pc := Rejected(e)) }

  function WithCast(s: State, i: nat, c: Cast): State
    requires i < |s.casts|
  {
    s.(casts := s.casts[i := c], clock := s.clock + 1)
  }

  function FindForCast(s: State, c: Cast, ok: bool): Cast {
    if !ok then Reject(c, StoreError)
    else if c.poll !in s.polls then Reject(c, PollNotFound)
    else if s.polls[c.poll].status != Active then Reject(c, PollClosed)
    else if c.option !in Ids(s.polls[c.poll].options) then Reject(c, OptionNotFound)
    else c.(pc := PollRead, options := s.polls[c.poll].options)
  }

  function CheckVoted(s: State, c: Cast, ok: bool): Cast {
    if !ok then Reject(c, StoreError)
    else if HasVoted(s.votes, c.poll, c.token) then Reject(c, AlreadyVoted)
    else c.(pc := NotVoted)
  }

  function VoteOf(c: Cast): Vote { Vote(c.poll, c.option, c.token) }

  function Insert(s: State, i: nat, ok: bool): State
    requires i < |s.casts|
  {
    var c := s.casts[i];
    if !ok then WithCast(s, i, Reject(c, StoreError))
    else if HasVoted(s.votes, c.poll, c.token) then WithCast(s, i, Reject(c, DuplicateKey))
    else WithCast(s, i, c.(pc := Inserted, mark := |s.accepted|))
         .(votes := s.votes + [VoteOf(c)], accepted := s.accepted + [Mark(VoteOf(c), i, s.clock, Pending)])
  }

  function Increase(s: State, i: nat, ok: bool): State
    requires i < |s.casts|
  {
    var c := s.casts[i];
    var inc := if ok then Applied(s.clock) else Lost;
    var t := WithCast(s, i, c.(pc := Incremented))
             .(accepted := if c.mark < |s.accepted| then s.accepted[c.mark := s.accepted[c.mark].(inc := inc)]
                           else s.accepted);
    if ok then t.(redis := HIncr(s.redis, c.poll, c.option)) else t.(lossy := s.lossy + {c.poll})
  }

  function ReadRedis(s: State, i: nat, ok: bool): State
    requires i < |s.casts|
  {
    var c := s.casts[i];
    var counts := RedisCounts(HashOf(s.redis, c.poll), c.options);
    if !ok then WithCast(s, i, c.(pc := Fallback))
    else WithCast(s, i, c.(pc := Counted, source := FromRedis(|s.log|), counts := counts))
         .(log := s.log + [Snapshot(c.poll, counts)])
  }

  /** The error of the aggregate is dropped, so the counts of a Cast may be the nil map. */
  function ReadMongo(s: State, i: nat, ok: bool): State
    requires i < |s.casts|
  {
    var c := s.casts[i];
    if ok then WithCast(s, i, c.(pc := Counted, source := FromMongo, counts := MongoCounts(s.votes, c.poll, c.options)))
    else WithCast(s, i, c.(pc := Counted, source := NoCounts, counts := map[])).(lossy := s.lossy + {c.poll})
  }

  ghost function EventOf(c: Cast): Event { Event(c.poll, c.counts, Sum(c.counts)) }

  ghost function Publish(s: State, i: nat, ok: bool): State
    requires i < |s.casts|
  {
    var c := s.casts[i];
    var t := WithCast(s, i, c.(pc := Accepted));
    if ok then t.(published := s.published + [EventOf(c)]) else t.(lossy := s.lossy + {c.poll})
  }

  function WithReader(s: State, j: nat, r: Reader): State
    requires j < |s.readers|
  {
    s.(readers := s.readers[j := r], clock := s.clock + 1)
  }

  function ReadRedisForResults(s: State, j: nat, ok: bool): State
    requires j < |s.readers|
  {
    var r := s.readers[j];
    var counts := RedisCounts(HashOf(s.redis, r.poll), r.options);
    if !ok then WithReader(s, j, r.(pc := Missed))
    else WithReader(s, j, r.(pc := Answered, source := FromRedis(|s.log|), counts := counts))
         .(log := s.log + [Snapshot(r.poll, counts)])
  }

  function WithAdmin(s: State, k: nat, pc: AdminPc): State
    requires k < |s.admins|
  {
    s.(admins := s.admins[k := s.admins[k].(pc := pc)], clock := s.clock + 1)
  }

  function FindForAdmin(s: State, d: Admin, ok: bool): AdminPc {
    if !ok || d.poll !in s.polls || s.polls[d.poll].creator != d.user then Refused
    else if d.kind.DeletePoll? then Purging else Writing
  }

  /** `$set` of the named fields on an existing document; a missing one is not created. */
  function WritePoll(polls: map<PollId, Poll>, p: PollId, kind: AdminKind): map<PollId, Poll> {
    if p !in polls then polls else
    match kind
    case UpdatePoll(title, description) =>
      var before := polls[p];
      polls[p := before.(title := if title.Some? then title.value else before.title,
                       description := if description.Some? then description.value else before.description)]
    case ClosePoll => polls[p := polls[p].(status := Closed)]
    case DeletePoll => polls - {p}
  }

  function WithRebuild(s: State, r: nat, b: Rebuild): State
    requires r < |s.rebuilds|
  {
    s.(rebuilds := s.rebuilds[r := b], clock := s.clock + 1)
  }

  function PollBaseOf(s: State, p: PollId): PollBase {
    if p in s.bases then s.bases[p] else PollBase(0, map[])
  }

  function BaseOf(s: State, p: PollId, o: OptionId): Base {
    var b := PollBaseOf(s, p);
    if o in b.sets then b.sets[o] else Base(0, 0, b.delAt)
  }

  function DeleteHash(s: State, r: nat, ok: bool): State
    requires r < |s.rebuilds|
  {
    var b := s.rebuilds[r];
    var t := WithRebuild(s, r, b.(pc := Setting(0)));
    if !ok then t
    else t.(redis := s.redis - {b.poll}, bases := s.bases[b.poll := PollBase(s.clock, map[])],
            rebuilt := s.rebuilt + {b.poll})
  }

  function SetField(s: State, r: nat, ok: bool): State
    requires r < |s.rebuilds| && s.rebuilds[r].pc.Setting? && s.rebuilds[r].pc.next < |s.rebuilds[r].options|
  {
    var b := s.rebuilds[r];
    var o := b.options[b.pc.next].id;
    var t := WithRebuild(s, r, b.(pc := if b.pc.next + 1 == |b.options| then Ended else Setting(b.pc.next + 1)));
    if !ok then t
    else
      var base := PollBaseOf(s, b.poll);
      t.(redis := HSet(s.redis, b.poll, o, Lookup(b.snap, o)),
         bases := s.bases[b.poll := base.(sets := base.sets[o := Base(Lookup(b.snap, o), b.snapAt, s.clock)])],
         rebuilt := s.rebuilt + {b.poll})
  }

  ghost function StepCast(s: State, i: nat, ok: bool): State
    requires i < |s.casts|
  {
    var c := s.casts[i];
    match c.pc
    case Started => WithCast(s, i, FindForCast(s, c, ok))
    case PollRead => WithCast(s, i, CheckVoted(s, c, ok))
    case NotVoted => Insert(s, i, ok)
    case Inserted => Increase(s, i, ok)
    case Incremented => ReadRedis(s, i, ok)
    case Fallback => ReadMongo(s, i, ok)
    case Counted => Publish(s, i, ok)
    case Accepted => s
    case Rejected(_) => s
  }

  function StepReader(s: State, j: nat, ok: bool): State
    requires j < |s.readers|
  {
    var r := s.readers[j];
    match r.pc
    case Asked =>
      if ok && r.poll in s.polls then WithReader(s, j, r.(pc := Found, options := s.polls[r.poll].options))
      else WithReader(s, j, r.(pc := Failed))
    case Found => ReadRedisForResults(s, j, ok)
    case Missed =>
      if !ok then WithReader(s, j, r.(pc := Failed))
      else WithReader(s, j, r.(pc := Answered, source := FromMongo, counts := MongoCounts(s.votes, r.poll, r.options)))
    case Answered => s
    case Failed => s
  }

  /** A failed DeleteMany is logged and the poll is deleted all the same. */
  function Purge(s: State, k: nat, ok: bool): State
    requires k < |s.admins|
  {
    var p := s.admins[k].poll;
    var t := WithAdmin(s, k, Writing);
    if ok then t.(votes := Keep(s.votes, OffPoll(p)), purged := s.purged + {p}) else t
  }

  function Write(s: State, k: nat, ok: bool): State
    requires k < |s.admins|
  {
    var d := s.admins[k];
    if !ok then WithAdmin(s, k, Refused)
    else WithAdmin(s, k, if d.kind.DeletePoll? then Done else ReadingBack)
         .(polls := WritePoll(s.polls, d.poll, d.kind))
  }

  function StepAdmin(s: State, k: nat, ok: bool): State
    requires k < |s.admins|
  {
    match s.admins[k].pc
    case Looking => WithAdmin(s, k, FindForAdmin(s, s.admins[k], ok))
    case Purging => Purge(s, k, ok)
    case Writing => Write(s, k, ok)
    case ReadingBack => WithAdmin(s, k, if ok then Done else Refused)
    case Done => s
    case Refused => s
  }

  function TakeSnapshot(s: State, r: nat, ok: bool): State
    requires r < |s.rebuilds|
  {
    var b := s.rebuilds[r];
    if !ok then WithRebuild(s, r, b.(pc := Ended))
    else WithRebuild(s, r, b.(pc := Deleting, snapAt := s.clock, snap := CountByOption(s.votes, b.poll)))
  }

  function StepRebuild(s: State, r: nat, ok: bool): State
    requires r < |s.rebuilds|
  {
    match s.rebuilds[r].pc
    case Snapshotting => TakeSnapshot(s, r, ok)
    case Deleting => DeleteHash(s, r, ok)
    case Setting(next) => if next < |s.rebuilds[r].options| then SetField(s, r, ok) else s
    case Ended => s
  }

  function Create(s: State, id: PollId, poll: Poll): State {
    if id in s.created then s
    else s.(polls := s.polls[id := poll.(status := Active)], created := s.created[id := poll.options],
            clock := s.clock + 1)
  }

  function StartCast(s: State, p: PollId, o: OptionId, t: Token): State {
    var pc := if t == "" then Rejected(InvalidVoterToken) else Started;
    s.(casts := s.casts + [Cast(p, o, t, pc, [], 0, Unread, map[])], clock := s.clock + 1)
  }

  function StartReader(s: State, p: PollId): State {
    s.(readers := s.readers + [Reader(p, Asked, [], Unread, map[])], clock := s.clock + 1)
  }

  function StartAdmin(s: State, kind: AdminKind, p: PollId, user: string): State {
    s.(admins := s.admins + [Admin(kind, p, user, Looking)], clock := s.clock + 1)
  }

  function StartRebuild(s: State, p: PollId, options: seq<PollOption>): State {
    s.(rebuilds := s.rebuilds + [Rebuild(p, options, Snapshotting, 0, map[])], clock := s.clock + 1)
  }

  ghost function Apply(s: State, a: Step): State {
    match a
    case CreatePoll(id, poll) => Create(s, id, poll)
    case BeginCast(p, o, t) => StartCast(s, p, o, t)
    case CastStep(i, ok) => if i < |s.casts| then StepCast(s, i, ok) else s
    case BeginResults(p) => StartReader(s, p)
    case ResultsStep(j, ok) => if j < |s.readers| then StepReader(s, j, ok) else s
    case BeginAdmin(kind, p, user) => StartAdmin(s, kind, p, user)
    case AdminStep(k, ok) => if k < |s.admins| then StepAdmin(s, k, ok) else s
    case BeginRebuild(p, options) => StartRebuild(s, p, options)
    case RebuildStep(r, ok) => if r < |s.rebuilds| then StepRebuild(s, r, ok) else s
  }

  ghost function Exec(s: State, run: seq<Step>): State {
    if run == [] then s else Apply(Exec(s, run[..|run| - 1]), run[|run| - 1])
  }
}
