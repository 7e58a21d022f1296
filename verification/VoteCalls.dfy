/** The vote and poll services over the shared stores: each call runs its commands in order, and the ghost
    state `sys` follows with one protocol step per command. `Net` says which commands get through. */
module VoteCalls {
  import opened Tallies
  import opened Models
  import opened RedisStrings
  import opened VoteProtocol
  import opened VoteLinks
  import opened VoteCounts
  import opened VoteUnique
  import opened VoteTheorems
  import opened VoteServices
  import Validators

  datatype Net = Net(find: bool, check: bool, insert: bool, incr: bool, readRedis: bool, readMongo: bool, publish: bool)

  /** `t` is reached from `s` by some run. */
  ghost predicate Leads(s: State, t: State) { exists run :: t == Exec(s, run) }

  /** As `Leads`, and only the Cast at place `i` has moved. */
  ghost predicate Moves(s: State, t: State, i: nat) {
    Leads(s, t) && i < |s.casts| == |t.casts| && t.casts == s.casts[i := t.casts[i]]
  }

  lemma LeadsStep(s: State, t: State, a: Step)
    requires Leads(s, t)
    ensures Leads(s, Apply(t, a))
  {
    var run :| t == Exec(s, run);
    assert (run + [a])[..|run|] == run;
    assert Exec(s, run + [a]) == Apply(t, a);
  }

  lemma LeadsSelf(s: State)
    ensures Leads(s, s)
  {
    assert Exec(s, []) == s;
  }

  lemma LeadsJoin(s: State, t: State, u: State)
    requires Leads(s, t) && Leads(t, u)
    ensures Leads(s, u)
  {
    var run :| t == Exec(s, run);
    var more :| u == Exec(t, more);
    ExecJoin(s, run, more);
  }

  lemma MovesJoin(s: State, t: State, u: State, i: nat)
    requires Moves(s, t, i) && Moves(t, u, i)
    ensures Moves(s, u, i)
  {
    LeadsJoin(s, t, u);
  }

  ghost predicate MirrorsHash(redis: map<PollId, Counts>, hashes: map<string, Hash>, p: PollId) {
    var h := StringHash(hashes, KeyOf(p));
    AllIntegers(h) && ScanCounts(h) == HashOf(redis, p)
  }

  ghost predicate Mirrors(redis: map<PollId, Counts>, hashes: map<string, Hash>) {
    forall p :: MirrorsHash(redis, hashes, p)
  }

  /** Replacing the hash of `p` on both sides. */
  lemma OneHashMirrors(redis: map<PollId, Counts>, hashes: map<string, Hash>,
                       after: map<PollId, Counts>, later: map<string, Hash>, p: PollId)
    requires Mirrors(redis, hashes) && MirrorsHash(after, later, p)
    requires forall q :: q != p ==> HashOf(after, q) == HashOf(redis, q)
    requires forall k :: k != KeyOf(p) ==> StringHash(later, k) == StringHash(hashes, k)
    ensures Mirrors(after, later)
  {
    forall q ensures MirrorsHash(after, later, q) {
      KeysDiffer(p, q);
      assert MirrorsHash(redis, hashes, q);
    }
  }

  /** Writing one field on both sides. */
  lemma FieldMirrors(redis: map<PollId, Counts>, hashes: map<string, Hash>, p: PollId, o: OptionId, v: int, next: Hash)
    requires Mirrors(redis, hashes) && AllIntegers(next)
    requires ScanCounts(next) == HashOf(redis, p)[o := v]
    ensures Mirrors(HSet(redis, p, o, v), hashes[KeyOf(p) := next])
  {
    var key, after := KeyOf(p), HSet(redis, p, o, v);
    var later := hashes[key := next];
    assert StringHash(later, key) == next;
    assert MirrorsHash(after, later, p);
    forall k | k != key ensures StringHash(later, k) == StringHash(hashes, k) {}
    forall q | q != p ensures HashOf(after, q) == HashOf(redis, q) {}
    OneHashMirrors(redis, hashes, after, later, p);
  }

  lemma IncrMirrors(redis: map<PollId, Counts>, hashes: map<string, Hash>, p: PollId, o: OptionId, next: Option<Hash>)
    requires Mirrors(redis, hashes) && next == HIncrBy(StringHash(hashes, KeyOf(p)), o)
    ensures next.None? <==> Lookup(HashOf(redis, p), o) == MAX_INT64
    ensures next.Some? ==> Mirrors(HIncr(redis, p, o), hashes[KeyOf(p) := next.value])
  {
    assert MirrorsHash(redis, hashes, p);
    var h := StringHash(hashes, KeyOf(p));
    HIncrByRefines(h, o);
    if next.Some? {
      FieldMirrors(redis, hashes, p, o, Lookup(ScanCounts(h), o) + 1, next.value);
    }
  }

  /** Why Cast refuses, decided by its checks in their order. */
  function Refusal(polls: map<PollId, Poll>, votes: seq<Vote>, p: PollId, o: OptionId, t: Token,
                   net: Net): Option<CastError>
  {
    if t == "" then Some(InvalidVoterToken)
    else if !net.find then Some(StoreError)
    else if p !in polls then Some(PollNotFound)
    else if polls[p].status != Active then Some(PollClosed)
    else if o !in Ids(polls[p].options) then Some(OptionNotFound)
    else if !net.check then Some(StoreError)
    else if HasVoted(votes, p, t) then Some(AlreadyVoted)
    else if !net.insert then Some(StoreError)
    else None
  }

  /** What a Cast reads: the hash, else the stored votes, else nothing. */
  function CountsRead(redis: map<PollId, Counts>, votes: seq<Vote>, p: PollId, options: seq<PollOption>,
                      net: Net): Counts
  {
    if net.readRedis then RedisCounts(HashOf(redis, p), options)
    else if net.readMongo then MongoCounts(votes, p, options)
    else map[]
  }

  /** Redis counts are the counters of the options and whatever else the hash holds. */
  lemma RedisAnswer(hash: Counts, options: seq<PollOption>)
    ensures RedisCounts(hash, options).Keys == Ids(options) + hash.Keys
    ensures forall o :: o in RedisCounts(hash, options) ==> RedisCounts(hash, options)[o] == Lookup(hash, o)
  {
  }

  /** MongoDB counts are the stored votes of each option. */
  lemma MongoAnswer(votes: seq<Vote>, p: PollId, options: seq<PollOption>)
    ensures MongoCounts(votes, p, options).Keys == Ids(options)
    ensures forall o :: o in MongoCounts(votes, p, options) ==>
              MongoCounts(votes, p, options)[o] == Tally(votes, VoteFor(p, o))
  {
    forall o | o in Ids(options) ensures MongoCounts(votes, p, options)[o] == Tally(votes, VoteFor(p, o)) {
      CountByOptionIs(votes, p, o);
    }
  }

  /** They add up to the stored votes of the poll. */
  lemma MongoTotal(s: State, p: PollId)
    requires Reachable(s) && p in s.polls
    ensures Sum(MongoCounts(s.votes, p, s.polls[p].options)) == CountByPoll(s.votes, p)
  {
    ReachableOk(s);
    assert OptionsKnown(s, p, s.polls[p].options);
    MongoSum(s.votes, p, s.polls[p].options);
  }

  lemma SumNothing()
    ensures Sum<OptionId>(map[]) == 0
  {
  }

  /** One more in one field, and the same everywhere else. */
  lemma IncrCounters(redis: map<PollId, Counts>, p: PollId, o: OptionId, q: PollId, f: OptionId)
    ensures Lookup(HashOf(HIncr(redis, p, o), q), f) ==
            Lookup(HashOf(redis, q), f) + if q == p && f == o then 1 else 0
  {
  }

  datatype AdminError = NotFound | Unauthorized | Unavailable

  /** Why a poll call refuses: the ownership check comes before any write. */
  function AdminRefusal(polls: map<PollId, Poll>, p: PollId, user: string, up: bool): Option<AdminError> {
    if !up then Some(Unavailable)
    else if p !in polls then Some(NotFound)
    else if polls[p].creator != user then Some(Unauthorized)
    else None
  }

  datatype CreateError = BadOptions(error: Validators.Error) | BadCreator | NotSaved

  /** `t` holds the same documents, counters and events as `s`. */
  predicate SameStores(s: State, t: State) {
    t.votes == s.votes && t.polls == s.polls && t.redis == s.redis && t.published == s.published
  }

  lemma ReaderFinds(s: State, p: PollId, up: bool)
    ensures var t := Apply(Apply(s, BeginResults(p)), ResultsStep(|s.readers|, up));
      SameStores(s, t) && |t.readers| == |s.readers| + 1
      && var r := t.readers[|s.readers|];
         up && p in s.polls ==> r.poll == p && r.pc == Found && r.options == s.polls[p].options
  {
    var begun := StartReader(s, p);
    assert Apply(begun, ResultsStep(|s.readers|, up)) == StepReader(begun, |s.readers|, up);
  }

  lemma AdminFinds(s: State, kind: AdminKind, p: PollId, user: string, up: bool)
    ensures var t := Apply(Apply(s, BeginAdmin(kind, p, user)), AdminStep(|s.admins|, up));
      SameStores(s, t) && |t.admins| == |s.admins| + 1
      && t.admins[|s.admins|] ==
         Admin(kind, p, user, if AdminRefusal(s.polls, p, user, up).Some? then Refused
                              else if kind.DeletePoll? then Purging else Writing)
  {
    var begun := StartAdmin(s, kind, p, user);
    assert Apply(begun, AdminStep(|s.admins|, up)) == StepAdmin(begun, |s.admins|, up);
  }

  lemma CastPublishes(s: State, i: nat, up: bool)
    requires i < |s.casts| && s.casts[i].pc.Counted?
    ensures var t := Apply(s, CastStep(i, up));
      t.casts == s.casts[i := s.casts[i].(pc := Accepted)]
      && t.votes == s.votes && t.polls == s.polls && t.redis == s.redis
      && t.published == s.published + if up then [EventOf(s.casts[i])] else []
  {
    assert Apply(s, CastStep(i, up)) == Publish(s, i, up);
  }

  /** What a MongoDB ObjectID looks like in hexadecimal. */
  predicate IsObjectId(id: string) {
    |id| == 24 && forall c :: c in id ==> '0' <= c <= '9' || 'a' <= c <= 'f' || 'A' <= c <= 'F'
  }

  /** The value of a hexadecimal digit, in either case. */
  function HexDigit(c: char): int {
    if '0' <= c <= '9' then c as int - '0' as int
    else if 'a' <= c <= 'f' then 10 + c as int - 'a' as int
    else if 'A' <= c <= 'F' then 10 + c as int - 'A' as int
    else -1
  }

  /** `Hex` of the object ID that the string spells: lower case, whatever case it was spelled in. */
  function HexOf(id: string): string {
    seq(|id|, i requires 0 <= i < |id| => if 'A' <= id[i] <= 'F' then (id[i] as int + 32) as char else id[i])
  }

  /** The same digits in lower case, so an ID in lower case is spelled as it was. */
  lemma SpelledLower(id: string)
    requires IsObjectId(id)
    ensures |HexOf(id)| == 24 && forall c :: c in HexOf(id) ==> !('A' <= c <= 'F')
    ensures forall i :: 0 <= i < 24 ==> HexDigit(HexOf(id)[i]) == HexDigit(id[i])
    ensures (forall c :: c in id ==> !('A' <= c <= 'F')) ==> HexOf(id) == id
  {
    assert forall i :: 0 <= i < 24 ==> id[i] in id;
  }

  lemma FreshId(s: State, id: PollId)
    requires Reachable(s) && id !in s.created
    ensures id !in s.polls
  {
    ReachableOk(s);
  }

  class Service {
    const voteRepo: VoteRepository
    const pollRepo: PollRepository
    const redis: RedisClient
    ghost var sys: State

    constructor ()
      ensures Valid() && fresh(voteRepo) && fresh(pollRepo) && fresh(redis) && sys == Init()
    {
      voteRepo := new VoteRepository();
      pollRepo := new PollRepository();
      redis := new RedisClient();
      sys := Init();
      LeadsSelf(Init());
    }

    /** The documents and the events are those of a reachable protocol state. */
    ghost predicate Tracks()
      reads this, voteRepo, pollRepo, redis
    {
      sys.votes == voteRepo.votes && sys.polls == pollRepo.polls && sys.published == redis.channel && Reachable(sys)
    }

    /** So are the counters, up to the decimal strings of the hashes. */
    ghost predicate Valid()
      reads this, voteRepo, pollRepo, redis
    {
      Tracks() && Mirrors(sys.redis, redis.hashes)
    }

    /** The call at place `i` of the protocol is at `pc` with these arguments. */
    ghost predicate CastIs(i: nat, p: PollId, o: OptionId, t: Token, pc: CastPc)
      reads this
    {
      i < |sys.casts| && sys.casts[i].poll == p && sys.casts[i].option == o && sys.casts[i].token == t
      && sys.casts[i].pc == pc
    }

    ghost method Follow(a: Step)
      requires Reachable(sys)
      modifies this`sys
      ensures sys == Apply(old(sys), a) && Reachable(sys) && Leads(old(sys), sys)
    {
      ReachableStep(sys, a);
      LeadsSelf(sys);
      LeadsStep(sys, sys, a);
      sys := Apply(sys, a);
    }

    /** A poll is created exactly when its options pass the service's check, the creator is an ID and the
        insert gets through; it starts active under the fresh ID, and nothing else changes. */
    method CreatePoll(creator: string, title: string, description: string, options: seq<PollOption>, id: PollId,
                      up: bool)
      returns (r: Result<Poll, CreateError>)
      requires Valid() && id !in sys.created
      modifies this`sys, pollRepo
      ensures Valid() && Leads(old(sys), sys)
      ensures r.Success? <==> 2 <= |options| <= 10 && Validators.DistinctTexts(options) && IsObjectId(creator) && up
      ensures r.Success? ==> r.value == Poll(r.value.creator, title, description, options, Active)
      ensures r.Success? ==>
                && |r.value.creator| == 24 && (forall c :: c in r.value.creator ==> !('A' <= c <= 'F'))
                && forall i :: 0 <= i < 24 ==> HexDigit(r.value.creator[i]) == HexDigit(creator[i])
      ensures r.Success? && (forall c :: c in creator ==> !('A' <= c <= 'F')) ==> r.value.creator == creator
      ensures pollRepo.polls == if r.Success? then old(pollRepo.polls)[id := r.value] else old(pollRepo.polls)
      ensures r.Failure? ==> sys == old(sys)
      ensures r == Failure(BadOptions(Validators.TooFewOptions)) <==> |options| < 2
      ensures r == Failure(BadOptions(Validators.TooManyOptions)) <==> |options| > 10
      ensures r == Failure(BadOptions(Validators.DuplicateText)) <==>
                2 <= |options| <= 10 && !Validators.DistinctTexts(options)
      ensures r == Failure(BadCreator) <==>
                2 <= |options| <= 10 && Validators.DistinctTexts(options) && !IsObjectId(creator)
      ensures r == Failure(NotSaved) <==>
                2 <= |options| <= 10 && Validators.DistinctTexts(options) && IsObjectId(creator) && !up
    {
      LeadsSelf(sys);
      var bad := Validators.ValidateOptions(options);
      if bad.Some? { return Failure(BadOptions(bad.value)); }
      if !IsObjectId(creator) { return Failure(BadCreator); }
      if !up { return Failure(NotSaved); }
      var poll := Poll(HexOf(creator), title, description, options, Active);
      FreshId(sys, id);
      Follow(VoteProtocol.CreatePoll(id, poll));
      pollRepo.Create(id, poll);
      r := Success(poll);
      SpelledLower(creator);
    }

    method Find(p: PollId, o: OptionId, t: Token, ghost i: nat, up: bool)
      returns (r: Result<seq<PollOption>, CastError>)
      requires Valid() && CastIs(i, p, o, t, Started)
      modifies this`sys
      ensures Valid() && Moves(old(sys), sys, i)
      ensures r == if !up then Failure(StoreError)
                   else if p !in pollRepo.polls then Failure(PollNotFound)
                   else if pollRepo.polls[p].status != Active then Failure(PollClosed)
                   else if o !in Ids(pollRepo.polls[p].options) then Failure(OptionNotFound)
                   else Success(pollRepo.polls[p].options)
      ensures sys.redis == old(sys.redis)
      ensures r.Failure? ==> CastIs(i, p, o, t, Rejected(r.error))
      ensures r.Success? ==> CastIs(i, p, o, t, PollRead) && sys.casts[i].options == r.value
    {
      Follow(CastStep(i, up));
      var poll := pollRepo.FindByID(p, up);
      if poll.Failure? { return Failure(poll.error); }
      if poll.value.None? { return Failure(PollNotFound); }
      if poll.value.value.status != Active { return Failure(PollClosed); }
      var known := HasOption(poll.value.value.options, o);
      if !known { return Failure(OptionNotFound); }
      r := Success(poll.value.value.options);
    }

    method Check(p: PollId, o: OptionId, t: Token, ghost i: nat, up: bool) returns (err: Option<CastError>)
      requires Valid() && CastIs(i, p, o, t, PollRead)
      modifies this`sys
      ensures Valid() && Moves(old(sys), sys, i)
      ensures sys.casts[i].options == old(sys.casts[i].options)
      ensures err ==
        if !up then Some(StoreError) else if HasVoted(voteRepo.votes, p, t) then Some(AlreadyVoted) else None
      ensures CastIs(i, p, o, t, if err.Some? then Rejected(err.value) else NotVoted) && sys.redis == old(sys.redis)
    {
      Follow(CastStep(i, up));
      var voted := voteRepo.HasVoted(p, t, up);
      if voted.Failure? { return Some(voted.error); }
      err := if voted.value then Some(AlreadyVoted) else None;
    }

    method Persist(p: PollId, o: OptionId, t: Token, ghost i: nat, up: bool) returns (err: Option<CastError>)
      requires Valid() && CastIs(i, p, o, t, NotVoted)
      modifies this`sys, voteRepo
      ensures Valid() && Moves(old(sys), sys, i)
      ensures sys.casts[i].options == old(sys.casts[i].options)
      ensures err == if !up then Some(StoreError)
                     else if HasVoted(old(voteRepo.votes), p, t) then Some(DuplicateKey) else None
      ensures voteRepo.votes == old(voteRepo.votes) + if err.None? then [Vote(p, o, t)] else []
      ensures CastIs(i, p, o, t, if err.Some? then Rejected(err.value) else Inserted) && sys.redis == old(sys.redis)
    {
      Follow(CastStep(i, up));
      err := voteRepo.Create(Vote(p, o, t), up);
    }

    /** HINCRBY; a failure is logged and the call goes on. */
    method Count(p: PollId, o: OptionId, t: Token, ghost i: nat, up: bool)
      requires Valid() && CastIs(i, p, o, t, Inserted)
      modifies this`sys, redis`hashes
      ensures Valid() && Moves(old(sys), sys, i)
      ensures sys.casts[i].options == old(sys.casts[i].options)
      ensures CastIs(i, p, o, t, Incremented)
      ensures sys.redis == if up && Lookup(HashOf(old(sys.redis), p), o) != MAX_INT64 then HIncr(old(sys.redis), p, o)
                           else old(sys.redis)
    {
      IncrMirrors(sys.redis, redis.hashes, p, o, RedisStrings.HIncrBy(StringHash(redis.hashes, KeyOf(p)), o));
      var ok := redis.HIncrBy(KeyOf(p), o, up);
      Follow(CastStep(i, ok));
    }

    method ReadCached(p: PollId, o: OptionId, t: Token, options: seq<PollOption>, ghost i: nat, up: bool)
      returns (r: Option<Counts>)
      requires Valid() && CastIs(i, p, o, t, Incremented) && sys.casts[i].options == options
      modifies this`sys
      ensures Valid() && Moves(old(sys), sys, i) && sys.redis == old(sys.redis)
      ensures r == if up then Some(RedisCounts(HashOf(sys.redis, p), options)) else None
      ensures CastIs(i, p, o, t, if up then Counted else Fallback) && sys.casts[i].options == options
      ensures r.Some? ==> sys.casts[i].counts == r.value
    {
      var data := redis.HGetAll(KeyOf(p), up);
      assert MirrorsHash(sys.redis, redis.hashes, p);
      Follow(CastStep(i, up));
      if data.None? { return None; }
      var counts := FillRedisCounts(data.value, options);
      r := Some(counts);
    }

    /** The fallback of Cast: the error of the aggregate is dropped and the counts are the nil map. */
    method ReadStored(p: PollId, o: OptionId, t: Token, options: seq<PollOption>, ghost i: nat, up: bool)
      returns (counts: Counts)
      requires Valid() && CastIs(i, p, o, t, Fallback) && sys.casts[i].options == options
      modifies this`sys
      ensures Valid() && Moves(old(sys), sys, i) && sys.redis == old(sys.redis)
      ensures counts == if up then MongoCounts(voteRepo.votes, p, options) else map[]
      ensures CastIs(i, p, o, t, Counted) && sys.casts[i].counts == counts
    {
      var found := voteRepo.CountByOption(p, up);
      Follow(CastStep(i, up));
      if found.Some? { counts := FillMongoCounts(found.value, options); } else { counts := map[]; }
    }

    method Announce(p: PollId, o: OptionId, t: Token, counts: Counts, ghost i: nat, up: bool) returns (e: Event)
      requires Valid() && CastIs(i, p, o, t, Counted) && sys.casts[i].counts == counts
      modifies this`sys, redis`channel
      ensures Valid() && Moves(old(sys), sys, i)
      ensures CastIs(i, p, o, t, Accepted) && sys.casts[i].counts == counts
      ensures e == Event(p, counts, Sum(counts))
      ensures redis.channel == old(redis.channel) + (if up then [e] else []) && sys.redis == old(sys.redis)
    {
      var total := Total(counts);
      e := Event(p, counts, total);
      CastPublishes(sys, i, up);
      Follow(CastStep(i, up));
      var ok := redis.Publish(e, up);
    }

    /** The whole call as a run of the protocol. */
    method CastRun(p: PollId, o: OptionId, t: Token, net: Net) returns (r: Result<Event, CastError>)
      requires Valid()
      modifies this`sys, voteRepo, redis
      ensures Valid() && Leads(old(sys), sys)
      ensures |sys.casts| == |old(sys.casts)| + 1 && sys.casts[..|old(sys.casts)|] == old(sys.casts)
      ensures r.Failure? <==> Refusal(pollRepo.polls, old(voteRepo.votes), p, o, t, net).Some?
      ensures r.Failure? ==> CastIs(|old(sys.casts)|, p, o, t, Rejected(r.error))
      ensures r.Failure? ==> Some(r.error) == Refusal(pollRepo.polls, old(voteRepo.votes), p, o, t, net)
      ensures voteRepo.votes == old(voteRepo.votes) + if r.Success? then [Vote(p, o, t)] else []
      ensures redis.channel == old(redis.channel) + if r.Success? && net.publish then [r.value] else []
      ensures sys.redis == if r.Success? && net.incr && Lookup(HashOf(old(sys.redis), p), o) != MAX_INT64
                           then HIncr(old(sys.redis), p, o) else old(sys.redis)
      ensures r.Success? ==>
                && CastIs(|old(sys.casts)|, p, o, t, Accepted) && r.value == EventOf(sys.casts[|old(sys.casts)|])
                && p in pollRepo.polls
                && r.value.counts == CountsRead(sys.redis, voteRepo.votes, p, pollRepo.polls[p].options, net)
    {
      ghost var i := |sys.casts|;
      ghost var before := sys;
      Follow(BeginCast(p, o, t));
      ghost var begun := sys;
      if t == "" { return Failure(InvalidVoterToken); }
      var found := Find(p, o, t, i, net.find);
      LeadsJoin(before, begun, sys);
      if found.Failure? { return Failure(found.error); }
      r := CheckAndVote(p, o, t, found.value, i, net, before);
    }

    /** The whole call, run without interruption. Each refusal has its own reason, and none leaves a trace. An accepted
        vote is stored and, unless its increment is lost, counted once; the answer is then the counters, else the
        stored votes, and the nil map only when neither could be read; and what is answered is published. */
    method Cast(p: PollId, o: OptionId, t: Token, net: Net) returns (r: Result<Event, CastError>)
      requires Valid()
      modifies this`sys, voteRepo, redis
      ensures Valid() && Leads(old(sys), sys)
      ensures |sys.casts| == |old(sys.casts)| + 1 && sys.casts[..|old(sys.casts)|] == old(sys.casts)
      // refusals
      ensures r == Failure(InvalidVoterToken) <==> t == ""
      ensures r == Failure(PollNotFound) <==> t != "" && net.find && p !in pollRepo.polls
      ensures r == Failure(PollClosed) <==>
                t != "" && net.find && p in pollRepo.polls && pollRepo.polls[p].status.Closed?
      ensures r == Failure(OptionNotFound) <==>
                t != "" && net.find && p in pollRepo.polls && pollRepo.polls[p].status.Active?
                && !exists opt :: opt in pollRepo.polls[p].options && opt.id == o
      ensures r == Failure(AlreadyVoted) <==>
                t != "" && net.find && p in pollRepo.polls && pollRepo.polls[p].status.Active?
                && (exists opt :: opt in pollRepo.polls[p].options && opt.id == o)
                && net.check && exists v :: v in old(voteRepo.votes) && v.poll == p && v.token == t
      ensures r.Success? <==>
                t != "" && net.find && p in pollRepo.polls && pollRepo.polls[p].status.Active?
                && (exists opt :: opt in pollRepo.polls[p].options && opt.id == o)
                && net.check && net.insert && !exists v :: v in old(voteRepo.votes) && v.poll == p && v.token == t
      ensures r.Failure? ==>
                r.error in {InvalidVoterToken, PollNotFound, PollClosed, OptionNotFound, AlreadyVoted, StoreError}
      // the stores
      ensures voteRepo.votes == old(voteRepo.votes) + if r.Success? then [Vote(p, o, t)] else []
      ensures redis.channel == old(redis.channel) + if r.Success? && net.publish then [r.value] else []
      ensures forall q, f :: Lookup(HashOf(sys.redis, q), f) ==
                             Lookup(HashOf(old(sys.redis), q), f)
                             + if r.Success? && net.incr && q == p && f == o
                                  && Lookup(HashOf(old(sys.redis), p), o) != MAX_INT64 then 1 else 0
      // the answer
      ensures r.Success? ==> r.value.poll == p && r.value.total == Sum(r.value.counts)
      ensures r.Success? && net.readRedis ==>
                && r.value.counts.Keys == Ids(pollRepo.polls[p].options) + HashOf(sys.redis, p).Keys
                && forall f :: f in r.value.counts ==> r.value.counts[f] == Lookup(HashOf(sys.redis, p), f)
      ensures r.Success? && !net.readRedis && net.readMongo ==>
                && r.value.counts.Keys == Ids(pollRepo.polls[p].options)
                && (forall f :: f in r.value.counts ==> r.value.counts[f] == Tally(voteRepo.votes, VoteFor(p, f)))
                && r.value.total == CountByPoll(voteRepo.votes, p)
      ensures r.Success? && !net.readRedis && !net.readMongo ==> r.value.counts == map[] && r.value.total == 0
      ensures r.Success? && r.value.counts == map[] ==> !net.readRedis && !net.readMongo
    {
      ghost var counters := sys.redis;
      r := CastRun(p, o, t, net);
      if r.Success? {
        forall q, f { IncrCounters(counters, p, o, q, f); }
        AnswerIs(p, o, net, r.value);
      }
    }

    /** What an accepted Cast answers, from the stores as they are after it. */
    lemma AnswerIs(p: PollId, o: OptionId, net: Net, e: Event)
      requires Valid() && p in pollRepo.polls && o in Ids(pollRepo.polls[p].options)
      requires e.counts == CountsRead(sys.redis, voteRepo.votes, p, pollRepo.polls[p].options, net)
      requires e.total == Sum(e.counts)
      ensures net.readRedis ==>
                && e.counts.Keys == Ids(pollRepo.polls[p].options) + HashOf(sys.redis, p).Keys
                && forall f :: f in e.counts ==> e.counts[f] == Lookup(HashOf(sys.redis, p), f)
      ensures !net.readRedis && net.readMongo ==>
                && e.counts.Keys == Ids(pollRepo.polls[p].options)
                && (forall f :: f in e.counts ==> e.counts[f] == Tally(voteRepo.votes, VoteFor(p, f)))
                && e.total == CountByPoll(voteRepo.votes, p)
      ensures !net.readRedis && !net.readMongo ==> e.counts == map[] && e.total == 0
      ensures net.readRedis || net.readMongo ==> o in e.counts
    {
      var options := pollRepo.polls[p].options;
      RedisAnswer(HashOf(sys.redis, p), options);
      MongoAnswer(voteRepo.votes, p, options);
      MongoTotal(sys, p);
      SumNothing();
    }

    /** Cast from its duplicate check on, with the option list it has read. */
    method CheckAndVote(p: PollId, o: OptionId, t: Token, options: seq<PollOption>, ghost i: nat, net: Net,
                        ghost before: State)
      returns (r: Result<Event, CastError>)
      requires Valid() && CastIs(i, p, o, t, PollRead) && sys.casts[i].options == options && Leads(before, sys)
      modifies this`sys, voteRepo, redis
      ensures Valid() && Leads(before, sys) && Moves(old(sys), sys, i)
      ensures r.Failure? <==> !net.check || HasVoted(old(voteRepo.votes), p, t) || !net.insert
      ensures r.Failure? ==> CastIs(i, p, o, t, Rejected(r.error))
      ensures r.Failure? ==>
                r.error == if net.check && HasVoted(old(voteRepo.votes), p, t) then AlreadyVoted else StoreError
      ensures voteRepo.votes == old(voteRepo.votes) + if r.Success? then [Vote(p, o, t)] else []
      ensures redis.channel == old(redis.channel) + if r.Success? && net.publish then [r.value] else []
      ensures sys.redis == if r.Success? && net.incr && Lookup(HashOf(old(sys.redis), p), o) != MAX_INT64
                           then HIncr(old(sys.redis), p, o) else old(sys.redis)
      ensures r.Success? ==>
                && CastIs(i, p, o, t, Accepted) && r.value == EventOf(sys.casts[i])
                && r.value.counts == CountsRead(sys.redis, voteRepo.votes, p, options, net)
    {
      ghost var start := sys;
      var refused := Check(p, o, t, i, net.check);
      LeadsJoin(before, start, sys);
      if refused.Some? { return Failure(refused.value); }
      ghost var checked := sys;
      refused := Persist(p, o, t, i, net.insert);
      MovesJoin(start, checked, sys, i);
      LeadsJoin(before, start, sys);
      if refused.Some? { return Failure(refused.value); }
      ghost var stored := sys;
      var e := Tell(p, o, t, options, i, net);
      MovesJoin(start, stored, sys, i);
      LeadsJoin(before, start, sys);
      r := Success(e);
    }

    /** Cast after its insert: increment, read, publish. */
    method Tell(p: PollId, o: OptionId, t: Token, options: seq<PollOption>, ghost i: nat, net: Net) returns (e: Event)
      requires Valid() && CastIs(i, p, o, t, Inserted) && sys.casts[i].options == options
      modifies this`sys, redis
      ensures Valid() && Moves(old(sys), sys, i) && CastIs(i, p, o, t, Accepted) && e == EventOf(sys.casts[i])
      ensures sys.redis == if net.incr && Lookup(HashOf(old(sys.redis), p), o) != MAX_INT64
                           then HIncr(old(sys.redis), p, o) else old(sys.redis)
      ensures e.counts == CountsRead(sys.redis, voteRepo.votes, p, options, net)
      ensures net.readRedis ==>
                && e.counts.Keys == Ids(options) + HashOf(sys.redis, p).Keys
                && forall f :: f in e.counts ==> e.counts[f] == Lookup(HashOf(sys.redis, p), f)
      ensures !net.readRedis && net.readMongo ==>
                && e.counts.Keys == Ids(options)
                && forall f :: f in e.counts ==> e.counts[f] == Tally(voteRepo.votes, VoteFor(p, f))
      ensures !net.readRedis && !net.readMongo ==> e.counts == map[]
      ensures redis.channel == old(redis.channel) + if net.publish then [e] else []
    {
      ghost var start := sys;
      Count(p, o, t, i, net.incr);
      ghost var counted := sys;
      var counts: Counts;
      var cached := ReadCached(p, o, t, options, i, net.readRedis);
      MovesJoin(start, counted, sys, i);
      if cached.Some? {
        counts := cached.value;
      } else {
        ghost var missed := sys;
        counts := ReadStored(p, o, t, options, i, net.readMongo);
        MovesJoin(start, missed, sys, i);
      }
      ghost var read := sys;
      e := Announce(p, o, t, counts, i, net.publish);
      MovesJoin(start, read, sys, i);
      RedisAnswer(HashOf(sys.redis, p), options);
      MongoAnswer(voteRepo.votes, p, options);
    }

    /** GetResults: an unpublished read, with its own error when both stores fail. */
    method GetResults(p: PollId, net: Net) returns (r: Result<Event, CastError>)
      requires Valid()
      modifies this`sys
      ensures Valid() && Leads(old(sys), sys)
      ensures r == if !net.find then Failure(StoreError)
                   else if p !in pollRepo.polls then Failure(PollNotFound)
                   else
                     var options := pollRepo.polls[p].options;
                     if net.readRedis then
                       var counts := RedisCounts(HashOf(sys.redis, p), options);
                       Success(Event(p, counts, Sum(counts)))
                     else if net.readMongo then
                       var counts := MongoCounts(voteRepo.votes, p, options);
                       Success(Event(p, counts, Sum(counts)))
                     else Failure(StoreError)
      ensures r.Success? <==> net.find && p in pollRepo.polls && (net.readRedis || net.readMongo)
      ensures r == Failure(PollNotFound) <==> net.find && p !in pollRepo.polls
      ensures r.Success? && net.readRedis ==>
                && r.value.counts.Keys == Ids(pollRepo.polls[p].options) + HashOf(sys.redis, p).Keys
                && forall f :: f in r.value.counts ==> r.value.counts[f] == Lookup(HashOf(sys.redis, p), f)
      ensures r.Success? && !net.readRedis ==>
                && r.value.counts.Keys == Ids(pollRepo.polls[p].options)
                && (forall f :: f in r.value.counts ==> r.value.counts[f] == Tally(voteRepo.votes, VoteFor(p, f)))
                && r.value.total == CountByPoll(voteRepo.votes, p)
    {
      ghost var before := sys;
      ghost var j := FollowFind(p, net.find);
      var found := pollRepo.FindByID(p, net.find);
      if found.Failure? { return Failure(found.error); }
      if found.value.None? { return Failure(PollNotFound); }
      var counts := ReadForResults(p, found.value.value.options, j, net, before);
      if counts.None? { return Failure(StoreError); }
      var total := Total(counts.value);
      r := Success(Event(p, counts.value, total));
      RedisAnswer(HashOf(sys.redis, p), found.value.value.options);
      MongoAnswer(voteRepo.votes, p, found.value.value.options);
      MongoTotal(sys, p);
    }

    /** The FindByID of GetResults, as far as the stores can tell. */
    ghost method FollowFind(p: PollId, up: bool) returns (j: nat)
      requires Reachable(sys)
      modifies this`sys
      ensures Reachable(sys) && Leads(old(sys), sys) && SameStores(old(sys), sys)
      ensures up && p in sys.polls ==> ReaderIs(j, p, sys.polls[p].options, Found)
    {
      var before := sys;
      j := |sys.readers|;
      ReaderFinds(sys, p, up);
      Follow(BeginResults(p));
      var begun := sys;
      Follow(ResultsStep(j, up));
      LeadsJoin(before, begun, sys);
    }

    /** One read of GetResults, as far as the stores can tell. */
    ghost method FollowRead(j: nat, p: PollId, options: seq<PollOption>, up: bool, before: State)
      requires Reachable(sys) && Leads(before, sys)
      requires (ReaderIs(j, p, options, Found) || ReaderIs(j, p, options, Missed))
      modifies this`sys
      ensures Reachable(sys) && Leads(before, sys) && SameStores(old(sys), sys)
      ensures old(ReaderIs(j, p, options, Found)) && !up ==> ReaderIs(j, p, options, Missed)
    {
      var start := sys;
      Follow(ResultsStep(j, up));
      LeadsJoin(before, start, sys);
    }

    ghost predicate ReaderIs(j: nat, p: PollId, options: seq<PollOption>, pc: ReaderPc)
      reads this
    {
      j < |sys.readers| && sys.readers[j].poll == p && sys.readers[j].options == options && sys.readers[j].pc == pc
    }

    method ReadForResults(p: PollId, options: seq<PollOption>, ghost j: nat, net: Net, ghost before: State)
      returns (r: Option<Counts>)
      requires Valid() && ReaderIs(j, p, options, Found) && Leads(before, sys)
      modifies this`sys
      ensures Valid() && Leads(before, sys) && sys.redis == old(sys.redis)
      ensures r == if net.readRedis then Some(RedisCounts(HashOf(sys.redis, p), options))
                   else if net.readMongo then Some(MongoCounts(voteRepo.votes, p, options)) else None
    {
      var data := redis.HGetAll(KeyOf(p), net.readRedis);
      assert MirrorsHash(sys.redis, redis.hashes, p);
      FollowRead(j, p, options, net.readRedis, before);
      if data.Some? {
        var counts := FillRedisCounts(data.value, options);
        return Some(counts);
      }
      var found := voteRepo.CountByOption(p, net.readMongo);
      FollowRead(j, p, options, net.readMongo, before);
      if found.None? { return None; }
      var counts := FillMongoCounts(found.value, options);
      r := Some(counts);
    }

    ghost predicate AdminIs(k: nat, kind: AdminKind, p: PollId, user: string, pc: AdminPc)
      reads this
    {
      k < |sys.admins| && sys.admins[k] == Admin(kind, p, user, pc)
    }

    /** The FindByID and ownership check, as far as the stores can tell. */
    ghost method FollowAuthorize(kind: AdminKind, p: PollId, user: string, up: bool) returns (k: nat)
      requires Reachable(sys)
      modifies this`sys
      ensures Reachable(sys) && Leads(old(sys), sys) && SameStores(old(sys), sys)
      ensures AdminIs(k, kind, p, user, if AdminRefusal(sys.polls, p, user, up).Some? then Refused
                                        else if kind.DeletePoll? then Purging else Writing)
    {
      var before := sys;
      k := |sys.admins|;
      AdminFinds(sys, kind, p, user, up);
      Follow(BeginAdmin(kind, p, user));
      var begun := sys;
      Follow(AdminStep(k, up));
      LeadsJoin(before, begun, sys);
    }

    /** FindByID and the ownership check that every poll call starts with. */
    method Authorize(kind: AdminKind, p: PollId, user: string, up: bool) returns (err: Option<AdminError>, ghost k: nat)
      requires Valid()
      modifies this`sys
      ensures Valid() && Leads(old(sys), sys) && sys.redis == old(sys.redis)
      ensures err == AdminRefusal(pollRepo.polls, p, user, up)
      ensures err == Some(Unavailable) <==> !up
      ensures err == Some(NotFound) <==> up && p !in pollRepo.polls
      ensures err == Some(Unauthorized) <==> up && p in pollRepo.polls && pollRepo.polls[p].creator != user
      ensures err.None? <==> up && p in pollRepo.polls && pollRepo.polls[p].creator == user
      ensures AdminIs(k, kind, p, user, if err.Some? then Refused else if kind.DeletePoll? then Purging else Writing)
    {
      k := FollowAuthorize(kind, p, user, up);
      var found := pollRepo.FindByID(p, up);
      if found.Failure? { return Some(Unavailable), k; }
      if found.value.None? { return Some(NotFound), k; }
      err := if found.value.value.creator != user then Some(Unauthorized) else None;
    }

    method SendWrite(kind: AdminKind, p: PollId, user: string, ghost k: nat, ghost before: State, up: bool)
      returns (ok: bool)
      requires Valid() && AdminIs(k, kind, p, user, Writing) && Leads(before, sys)
      modifies this`sys, pollRepo
      ensures Valid() && Leads(before, sys) && ok == up
      ensures pollRepo.polls == if ok then WritePoll(old(pollRepo.polls), p, kind) else old(pollRepo.polls)
      ensures var was, now := old(pollRepo.polls), pollRepo.polls;
        ok && p in was && kind.UpdatePoll? ==>
          && p in now
          && now[p].title == (if kind.title.Some? then kind.title.value else was[p].title)
          && now[p].description == (if kind.description.Some? then kind.description.value else was[p].description)
          && now[p].options == was[p].options && now[p].creator == was[p].creator && now[p].status == was[p].status
      ensures var was, now := old(pollRepo.polls), pollRepo.polls;
        ok && p in was && kind.ClosePoll? ==>
          && p in now && now[p].status.Closed?
          && now[p].title == was[p].title && now[p].description == was[p].description
          && now[p].options == was[p].options && now[p].creator == was[p].creator
      ensures p !in old(pollRepo.polls) ==> p !in pollRepo.polls
      ensures pollRepo.polls - {p} == old(pollRepo.polls) - {p}
      ensures ok && kind.DeletePoll? ==> p !in pollRepo.polls
      ensures !ok ==> pollRepo.polls == old(pollRepo.polls)
      ensures AdminIs(k, kind, p, user, if !ok then Refused else if kind.DeletePoll? then Done else ReadingBack)
    {
      ghost var start := sys;
      Follow(AdminStep(k, up));
      LeadsJoin(before, start, sys);
      ok := pollRepo.Write(p, kind, up);
    }

    method SendPurge(p: PollId, user: string, ghost k: nat, ghost before: State, up: bool)
      requires Valid() && AdminIs(k, DeletePoll, p, user, Purging) && Leads(before, sys)
      modifies this`sys, voteRepo
      ensures Valid() && Leads(before, sys) && AdminIs(k, DeletePoll, p, user, Writing)
      ensures voteRepo.votes == if up then Keep(old(voteRepo.votes), OffPoll(p)) else old(voteRepo.votes)
    {
      ghost var start := sys;
      Follow(AdminStep(k, up));
      LeadsJoin(before, start, sys);
      voteRepo.DeleteByPollID(p, up);
    }

    method ReadBack(kind: AdminKind, p: PollId, user: string, ghost k: nat, ghost before: State, up: bool)
      returns (r: Result<Option<Poll>, AdminError>)
      requires Valid() && AdminIs(k, kind, p, user, ReadingBack) && Leads(before, sys)
      modifies this`sys
      ensures Valid() && Leads(before, sys)
      ensures r == if !up then Failure(Unavailable)
                   else Success(if p in pollRepo.polls then Some(pollRepo.polls[p]) else None)
    {
      ghost var start := sys;
      Follow(AdminStep(k, up));
      LeadsJoin(before, start, sys);
      var found := pollRepo.FindByID(p, up);
      if found.Failure? { return Failure(Unavailable); }
      r := Success(found.value);
    }

    /** Update and Close: check, `$set`, read back. Each refusal has its own reason; only the owner's call that gets
        through writes, and then only what it names. */
    method Change(kind: AdminKind, p: PollId, user: string, find: bool, write: bool, readBack: bool)
      returns (r: Result<Option<Poll>, AdminError>)
      requires Valid() && !kind.DeletePoll?
      modifies this`sys, pollRepo
      ensures Valid() && Leads(old(sys), sys)
      ensures r == Failure(NotFound) <==> find && p !in old(pollRepo.polls)
      ensures r == Failure(Unauthorized) <==>
                find && p in old(pollRepo.polls) && old(pollRepo.polls)[p].creator != user
      ensures r.Success? <==>
                find && p in old(pollRepo.polls) && old(pollRepo.polls)[p].creator == user && write && readBack
      ensures r.Success? ==> p in pollRepo.polls && r.value == Some(pollRepo.polls[p])
      ensures !(find && p in old(pollRepo.polls) && old(pollRepo.polls)[p].creator == user && write) ==>
                pollRepo.polls == old(pollRepo.polls)
      ensures var was, now := old(pollRepo.polls), pollRepo.polls;
        find && write && p in was && was[p].creator == user && kind.UpdatePoll? ==>
          && p in now
          && now[p].title == (if kind.title.Some? then kind.title.value else was[p].title)
          && now[p].description == (if kind.description.Some? then kind.description.value else was[p].description)
          && now[p].options == was[p].options && now[p].creator == was[p].creator && now[p].status == was[p].status
      ensures var was, now := old(pollRepo.polls), pollRepo.polls;
        find && write && p in was && was[p].creator == user && kind.ClosePoll? ==>
          && p in now && now[p].status.Closed?
          && now[p].title == was[p].title && now[p].description == was[p].description
          && now[p].options == was[p].options && now[p].creator == was[p].creator
      ensures p !in old(pollRepo.polls) ==> p !in pollRepo.polls
      ensures pollRepo.polls - {p} == old(pollRepo.polls) - {p}
    {
      ghost var before := sys;
      var refused, k := Authorize(kind, p, user, find);
      if refused.Some? { return Failure(refused.value); }
      var ok := SendWrite(kind, p, user, k, before, write);
      if !ok { return Failure(Unavailable); }
      r := ReadBack(kind, p, user, k, before, readBack);
    }

    /** Delete: a failed DeleteMany is logged, and the poll goes all the same. */
    method Delete(p: PollId, user: string, find: bool, purge: bool, write: bool) returns (err: Option<AdminError>)
      requires Valid()
      modifies this`sys, pollRepo, voteRepo
      ensures Valid() && Leads(old(sys), sys)
      ensures err == Some(NotFound) <==> find && p !in old(pollRepo.polls)
      ensures err == Some(Unauthorized) <==>
                find && p in old(pollRepo.polls) && old(pollRepo.polls)[p].creator != user
      ensures err.None? <==> find && p in old(pollRepo.polls) && old(pollRepo.polls)[p].creator == user && write
      ensures pollRepo.polls == if err.None? then old(pollRepo.polls) - {p} else old(pollRepo.polls)
      ensures voteRepo.votes ==
        if find && p in old(pollRepo.polls) && old(pollRepo.polls)[p].creator == user && purge
        then Keep(old(voteRepo.votes), OffPoll(p)) else old(voteRepo.votes)
      ensures find && p in old(pollRepo.polls) && old(pollRepo.polls)[p].creator == user && purge ==>
                forall v :: v in voteRepo.votes <==> v in old(voteRepo.votes) && v.poll != p
    {
      ghost var before := sys;
      var refused, k := Authorize(DeletePoll, p, user, find);
      if refused.Some? { return refused; }
      SendPurge(p, user, k, before, purge);
      var ok := SendWrite(DeletePoll, p, user, k, before, write);
      err := if ok then None else Some(Unavailable);
    }

    // ---- rebuild --------------------------------------------------------------------------

    ghost predicate RebuildIs(r: nat, p: PollId, options: seq<PollOption>, snap: Counts, pc: RebuildPc)
      reads this
    {
      r < |sys.rebuilds| && sys.rebuilds[r].poll == p && sys.rebuilds[r].options == options
      && sys.rebuilds[r].snap == snap && sys.rebuilds[r].pc == pc
    }

    method TakeSnap(p: PollId, options: seq<PollOption>, up: bool) returns (snap: Option<Counts>, ghost r: nat)
      requires Tracks()
      modifies this`sys
      ensures Tracks() && Leads(old(sys), sys) && sys.redis == old(sys.redis)
      ensures snap == if up then Some(CountByOption(voteRepo.votes, p)) else None
      ensures snap.Some? ==> RebuildIs(r, p, options, snap.value, Deleting)
    {
      ghost var before := sys;
      r := |sys.rebuilds|;
      Follow(BeginRebuild(p, options));
      FollowSnap(r, p, options, up, before);
      snap := voteRepo.CountByOption(p, up);
    }

    /** The aggregate of a rebuild, as far as the stores can tell. */
    ghost method FollowSnap(r: nat, p: PollId, options: seq<PollOption>, up: bool, before: State)
      requires Reachable(sys) && Leads(before, sys)
      requires r < |sys.rebuilds| && sys.rebuilds[r] == Rebuild(p, options, Snapshotting, 0, map[])
      modifies this`sys
      ensures Reachable(sys) && Leads(before, sys)
      ensures up ==> RebuildIs(r, p, options, CountByOption(sys.votes, p), Deleting)
      ensures sys.votes == old(sys.votes) && sys.polls == old(sys.polls) && sys.published == old(sys.published)
      ensures sys.redis == old(sys.redis)
    {
      ghost var start := sys;
      Follow(RebuildStep(r, up));
      LeadsJoin(before, start, sys);
    }

    /** The DEL of a rebuild, as far as the stores can tell. */
    ghost method FollowDel(r: nat, p: PollId, options: seq<PollOption>, snap: Counts, up: bool, before: State)
      requires Reachable(sys) && RebuildIs(r, p, options, snap, Deleting) && Leads(before, sys)
      modifies this`sys
      ensures Reachable(sys) && RebuildIs(r, p, options, snap, Setting(0)) && Leads(before, sys)
      ensures sys.votes == old(sys.votes) && sys.polls == old(sys.polls) && sys.published == old(sys.published)
      ensures sys.redis == if up then old(sys.redis) - {p} else old(sys.redis)
    {
      ghost var start := sys;
      Follow(RebuildStep(r, up));
      LeadsJoin(before, start, sys);
    }

    /** One HSET of a rebuild, as far as the stores can tell. */
    ghost method FollowSet(r: nat, p: PollId, options: seq<PollOption>, snap: Counts, i: nat, up: bool, before: State)
      requires Reachable(sys) && RebuildIs(r, p, options, snap, Setting(i)) && i < |options| && Leads(before, sys)
      modifies this`sys
      ensures Reachable(sys) && Leads(before, sys)
      ensures RebuildIs(r, p, options, snap, if i + 1 == |options| then Ended else Setting(i + 1))
      ensures sys.votes == old(sys.votes) && sys.polls == old(sys.polls) && sys.published == old(sys.published)
      ensures sys.redis ==
        if up then HSet(old(sys.redis), p, options[i].id, Lookup(snap, options[i].id)) else old(sys.redis)
    {
      ghost var start := sys;
      Follow(RebuildStep(r, up));
      LeadsJoin(before, start, sys);
    }

    method SendDel(p: PollId, options: seq<PollOption>, snap: Counts, up: bool, ghost r: nat, ghost before: State)
      requires Tracks() && RebuildIs(r, p, options, snap, Deleting) && Leads(before, sys)
      modifies this`sys, redis`hashes
      ensures Tracks() && Leads(before, sys) && RebuildIs(r, p, options, snap, Setting(0))
      ensures StringHash(redis.hashes, KeyOf(p)) == if up then map[] else StringHash(old(redis.hashes), KeyOf(p))
      ensures Elsewhere(old(sys.redis), sys.redis, old(redis.hashes), redis.hashes, p)
      ensures up || old(MirrorsHash(sys.redis, redis.hashes, p)) ==> MirrorsHash(sys.redis, redis.hashes, p)
    {
      redis.Del(KeyOf(p), up);
      FollowDel(r, p, options, snap, up, before);
    }

    method SendSet(p: PollId, options: seq<PollOption>, snap: Counts, i: nat, up: bool, ghost r: nat,
                   ghost before: State)
      requires Tracks() && RebuildIs(r, p, options, snap, Setting(i)) && i < |options|
      requires Leads(before, sys) && IsInt64(Lookup(snap, options[i].id))
      modifies this`sys, redis`hashes
      ensures Tracks() && Leads(before, sys)
      ensures RebuildIs(r, p, options, snap, if i + 1 == |options| then Ended else Setting(i + 1))
      ensures var h := StringHash(old(redis.hashes), KeyOf(p));
        StringHash(redis.hashes, KeyOf(p)) ==
        if up then h[options[i].id := PrintInt(Lookup(snap, options[i].id))] else h
      ensures Elsewhere(old(sys.redis), sys.redis, old(redis.hashes), redis.hashes, p)
      ensures old(MirrorsHash(sys.redis, redis.hashes, p)) ==> MirrorsHash(sys.redis, redis.hashes, p)
    {
      SetElsewhere(sys.redis, redis.hashes, p, options[i].id, Lookup(snap, options[i].id));
      if MirrorsHash(sys.redis, redis.hashes, p) {
        SetMirrors(sys.redis, redis.hashes, p, options[i].id, Lookup(snap, options[i].id));
      }
      redis.HSet(KeyOf(p), options[i].id, Lookup(snap, options[i].id), up);
      FollowSet(r, p, options, snap, i, up, before);
    }

    /** InitRedisCounters: the aggregate, then a pipeline of DEL and one HSET per option, each of which gets
        through or not as `sent` says. Whatever any hash held before, a rebuild whose commands all get through
        leaves exactly the printed stored counts, and one whose DEL does puts the counters of `p` back in step
        with the protocol; no other hash is touched. */
    method InitRedisCounters(p: PollId, options: seq<PollOption>, found: bool, sent: seq<bool>) returns (ok: bool)
      requires Tracks() && IsInt64(|voteRepo.votes|) && |sent| == |options| + 1
      modifies this`sys, redis`hashes
      ensures Tracks() && Leads(old(sys), sys) && (ok <==> found && false !in sent)
      ensures ok ==> StringHash(redis.hashes, KeyOf(p)) == Rebuilt(CountByOption(voteRepo.votes, p), options)
      ensures StringHash(redis.hashes, KeyOf(p)) ==
              var was := StringHash(old(redis.hashes), KeyOf(p));
              if !found then was
              else AfterSets(if sent[0] then map[] else was, CountByOption(voteRepo.votes, p), options, sent[1..])
      ensures var was, now := StringHash(old(redis.hashes), KeyOf(p)), StringHash(redis.hashes, KeyOf(p));
        found ==> forall f ::
          if exists i :: 0 <= i < |options| && sent[i + 1] && options[i].id == f
          then f in now && Scan(now[f]) == Tally(voteRepo.votes, VoteFor(p, f))
          else if sent[0] then f !in now
          else (f in now <==> f in was) && (f in now ==> now[f] == was[f])
      ensures Elsewhere(old(sys.redis), sys.redis, old(redis.hashes), redis.hashes, p)
      ensures (found && sent[0]) || old(MirrorsHash(sys.redis, redis.hashes, p)) ==>
                MirrorsHash(sys.redis, redis.hashes, p)
      ensures old(Valid()) ==> Valid()
      ensures found && sent[0] && (forall q :: q != p ==> old(MirrorsHash(sys.redis, redis.hashes, q))) ==> Valid()
    {
      ghost var before, hashes := sys, redis.hashes;
      var snap, r := TakeSnap(p, options, found);
      if snap.None? {
        return false;
      }
      SendPipeline(p, options, snap.value, sent, r, before);
      RestMirrors(before.redis, sys.redis, hashes, redis.hashes, p);
      assert sent == [sent[0]] + sent[1..];
      if sent[0] && false !in sent[1..] { AllSetsRebuild(snap.value, options, sent[1..]); }
      FieldsSet(voteRepo.votes, p, if sent[0] then map[] else StringHash(hashes, KeyOf(p)), options, sent);
      ok := false !in sent;
    }

    method SendPipeline(p: PollId, options: seq<PollOption>, snap: Counts, sent: seq<bool>, ghost r: nat,
                        ghost before: State)
      requires Tracks() && RebuildIs(r, p, options, snap, Deleting) && Leads(before, sys)
      requires IsInt64(|voteRepo.votes|) && snap == CountByOption(voteRepo.votes, p) && |sent| == |options| + 1
      modifies this`sys, redis`hashes
      ensures Tracks() && Leads(before, sys)
      ensures StringHash(redis.hashes, KeyOf(p)) ==
              AfterSets(if sent[0] then map[] else StringHash(old(redis.hashes), KeyOf(p)), snap, options, sent[1..])
      ensures Elsewhere(old(sys.redis), sys.redis, old(redis.hashes), redis.hashes, p)
      ensures sent[0] || old(MirrorsHash(sys.redis, redis.hashes, p)) ==> MirrorsHash(sys.redis, redis.hashes, p)
    {
      ghost var start := if sent[0] then map[] else StringHash(redis.hashes, KeyOf(p));
      SendDel(p, options, snap, sent[0], r, before);
      ghost var sets := sent[1..];
      for i := 0 to |options|
        invariant Tracks() && Leads(before, sys)
        invariant RebuildIs(r, p, options, snap, if i == |options| && i > 0 then Ended else Setting(i))
        invariant StringHash(redis.hashes, KeyOf(p)) == AfterSets(start, snap, options[..i], sets[..i])
        invariant Elsewhere(old(sys.redis), sys.redis, old(redis.hashes), redis.hashes, p)
        invariant sent[0] || old(MirrorsHash(sys.redis, redis.hashes, p)) ==> MirrorsHash(sys.redis, redis.hashes, p)
      {
        CountByOptionIs(voteRepo.votes, p, options[i].id);
        TallyAtMost(voteRepo.votes, VoteFor(p, options[i].id));
        SetsPush(start, snap, options, sets, i);
        SendSet(p, options, snap, i, sent[i + 1], r, before);
      }
      assert options[..|options|] == options && sets[..|options|] == sets;
    }
  }

  /** Nothing but the hash of `p` has changed, in the strings and in the protocol. */
  ghost predicate Elsewhere(redis: map<PollId, Counts>, after: map<PollId, Counts>,
                            hashes: map<string, Hash>, later: map<string, Hash>, p: PollId) {
    && (forall q :: q != p ==> HashOf(after, q) == HashOf(redis, q))
    && (forall k :: k != KeyOf(p) ==> StringHash(later, k) == StringHash(hashes, k))
  }

  /** A rebuilt hash among mirrored others, and an unharmed one. */
  lemma RestMirrors(redis: map<PollId, Counts>, after: map<PollId, Counts>,
                    hashes: map<string, Hash>, later: map<string, Hash>, p: PollId)
    requires Elsewhere(redis, after, hashes, later, p)
    ensures MirrorsHash(after, later, p) && (forall q :: q != p ==> MirrorsHash(redis, hashes, q)) ==>
              Mirrors(after, later)
  {
    if MirrorsHash(after, later, p) && forall q :: q != p ==> MirrorsHash(redis, hashes, q) {
      forall q ensures MirrorsHash(after, later, q) {
        KeysDiffer(p, q);
        assert q != p ==> MirrorsHash(redis, hashes, q);
      }
    }
  }

  /** The strings after one HSET. */
  function AfterSet(hashes: map<string, Hash>, p: PollId, o: OptionId, n: int): map<string, Hash> {
    hashes[KeyOf(p) := StringHash(hashes, KeyOf(p))[o := PrintInt(n)]]
  }

  lemma SetElsewhere(redis: map<PollId, Counts>, hashes: map<string, Hash>, p: PollId, o: OptionId, n: int)
    ensures Elsewhere(redis, HSet(redis, p, o, n), hashes, AfterSet(hashes, p, o, n), p)
    ensures Elsewhere(redis, redis, hashes, hashes, p)
  {
  }

  lemma SetMirrors(redis: map<PollId, Counts>, hashes: map<string, Hash>, p: PollId, o: OptionId, n: int)
    requires IsInt64(n) && MirrorsHash(redis, hashes, p)
    ensures MirrorsHash(HSet(redis, p, o, n), AfterSet(hashes, p, o, n), p)
  {
    var h := StringHash(hashes, KeyOf(p));
    HSetRefines(h, o, n);
    assert StringHash(AfterSet(hashes, p, o, n), KeyOf(p)) == h[o := PrintInt(n)];
    assert HashOf(HSet(redis, p, o, n), p) == HashOf(redis, p)[o := n];
  }

  /** What a pipeline leaves in each field: the printed stored count where an HSET got through. */
  lemma FieldsSet(votes: seq<Vote>, p: PollId, start: Hash, options: seq<PollOption>, sent: seq<bool>)
    requires |sent| == |options| + 1 && IsInt64(|votes|)
    ensures var now := AfterSets(start, CountByOption(votes, p), options, sent[1..]);
      forall f ::
        if exists i :: 0 <= i < |options| && sent[i + 1] && options[i].id == f
        then f in now && Scan(now[f]) == Tally(votes, VoteFor(p, f))
        else (f in now <==> f in start) && (f in now ==> now[f] == start[f])
  {
    var snap := CountByOption(votes, p);
    forall f
      ensures var now := AfterSets(start, snap, options, sent[1..]);
        if exists i :: 0 <= i < |options| && sent[i + 1] && options[i].id == f
        then f in now && Scan(now[f]) == Tally(votes, VoteFor(p, f))
        else (f in now <==> f in start) && (f in now ==> now[f] == start[f])
    {
      FieldSet(start, snap, options, sent[1..], f);
      CountByOptionIs(votes, p, f);
      TallyAtMost(votes, VoteFor(p, f));
      ScanPrint(Lookup(snap, f));
      if i :| 0 <= i < |options| && sent[i + 1] && options[i].id == f {
        assert sent[1..][i] == sent[i + 1];
      } else {
        assert forall i :: 0 <= i < |options| ==> sent[1..][i] == sent[i + 1];
      }
    }
  }

  lemma {:induction false} TallyAtMost<T>(s: seq<T>, f: T -> bool)
    ensures Tally(s, f) <= |s|
    decreases |s|
  {
    if s != [] { TallyAtMost(s[..|s| - 1], f); }
  }

  /** A rebuilt hash reads as the stored counts, on exactly the option IDs. */
  lemma {:induction false} RebuiltReadsStored(votes: seq<Vote>, p: PollId, options: seq<PollOption>)
    requires IsInt64(|votes|)
    ensures RedisCounts(ScanCounts(Rebuilt(CountByOption(votes, p), options)), options) ==
      MongoCounts(votes, p, options)
    ensures AllIntegers(Rebuilt(CountByOption(votes, p), options))
  {
    var snap := CountByOption(votes, p);
    var hash := Rebuilt(snap, options);
    forall o | o in hash ensures Scan(hash[o]) == Lookup(snap, o) && IsInteger(hash[o]) {
      CountByOptionIs(votes, p, o);
      TallyAtMost(votes, VoteFor(p, o));
      ScanPrint(Lookup(snap, o));
    }
  }
}
