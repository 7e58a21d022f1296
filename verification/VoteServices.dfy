/** The repositories and services themselves, over stores they update in place. Every command they send is
    one step of the vote protocol, so what holds of every run holds of what they do. */
module VoteServices {
  import opened Tallies
  import opened Models
  import opened RedisStrings
  import opened VoteProtocol
  import opened VoteCounts
  import opened VoteUnique
  import opened VoteTheorems

  class VoteRepository {
    var votes: seq<Vote>

    constructor ()
      ensures votes == []
    {
      votes := [];
    }

    /** InsertOne under the unique (pollId, voterToken) index. */
    method Create(vote: Vote, up: bool) returns (err: Option<CastError>)
      modifies this
      ensures err == if !up then Some(StoreError)
                     else if VoteProtocol.HasVoted(old(votes), vote.poll, vote.token) then Some(DuplicateKey) else None
      ensures votes == old(votes) + if err.None? then [vote] else []
    {
      if !up { return Some(StoreError); }
      var taken := TokenTaken(vote.poll, vote.token);
      if taken { return Some(DuplicateKey); }
      votes := votes + [vote];
      err := None;
    }

    method TokenTaken(p: PollId, t: Token) returns (taken: bool)
      ensures taken == VoteProtocol.HasVoted(votes, p, t)
    {
      for i := 0 to |votes|
        invariant forall v :: v in votes[..i] ==> !(v.poll == p && v.token == t)
      {
        if votes[i].poll == p && votes[i].token == t { return true; }
        assert votes[..i + 1] == votes[..i] + [votes[i]];
      }
      assert votes[..|votes|] == votes;
      taken := false;
    }

    method HasVoted(p: PollId, t: Token, up: bool) returns (r: Result<bool, CastError>)
      ensures r == if up then Success(VoteProtocol.HasVoted(votes, p, t)) else Failure(StoreError)
    {
      if !up { return Failure(StoreError); }
      var taken := TokenTaken(p, t);
      r := Success(taken);
    }

    /** The grouped aggregate, filled into a map entry by entry. */
    method CountByOption(p: PollId, up: bool) returns (r: Option<Counts>)
      ensures r == if up then Some(VoteProtocol.CountByOption(votes, p)) else None
    {
      if !up { return None; }
      var result: Counts := map[];
      for i := 0 to |votes|
        invariant result == VoteProtocol.CountByOption(votes[..i], p)
      {
        assert votes[..i + 1] == votes[..i] + [votes[i]];
        CountPush(votes[..i], votes[i], p);
        if votes[i].poll == p {
          var n := Lookup(result, votes[i].option);
          result := result[votes[i].option := n + 1];
        }
      }
      assert votes[..|votes|] == votes;
      r := Some(result);
    }

    method CountByPoll(p: PollId) returns (n: nat)
      ensures n == VoteUnique.CountByPoll(votes, p)
    {
      n := 0;
      for i := 0 to |votes|
        invariant n == VoteUnique.CountByPoll(votes[..i], p)
      {
        assert votes[..i + 1] == votes[..i] + [votes[i]];
        TallyPush(votes[..i], votes[i], OnPoll(p));
        if votes[i].poll == p { n := n + 1; }
      }
      assert votes[..|votes|] == votes;
    }

    method DeleteByPollID(p: PollId, up: bool)
      modifies this
      ensures votes == if up then Keep(old(votes), OffPoll(p)) else old(votes)
    {
      if up { votes := Keep(votes, OffPoll(p)); }
    }
  }

  lemma KeysPush(votes: seq<Vote>, v: Vote, p: PollId)
    ensures CountByOption(votes + [v], p).Keys == CountByOption(votes, p).Keys + if v.poll == p then {v.option} else {}
  {
    assert forall u :: u in votes + [v] <==> u in votes || u == v;
  }

  /** Maps that agree on their keys, looked up, are equal. */
  lemma SameCounts(left: Counts, right: Counts)
    requires left.Keys == right.Keys && forall o :: o in left ==> Lookup(left, o) == Lookup(right, o)
    ensures left == right
  {
  }

  /** One more vote in the aggregate. */
  lemma CountPush(votes: seq<Vote>, v: Vote, p: PollId)
    ensures CountByOption(votes + [v], p) ==
            if v.poll == p then CountByOption(votes, p)[v.option := Lookup(CountByOption(votes, p), v.option) + 1]
            else CountByOption(votes, p)
  {
    if v.poll == p { OwnPush(votes, v); } else { OtherPush(votes, v, p); }
  }

  lemma OwnPush(votes: seq<Vote>, v: Vote)
    ensures var before := CountByOption(votes, v.poll);
      CountByOption(votes + [v], v.poll) == before[v.option := Lookup(before, v.option) + 1]
  {
    var before, after := CountByOption(votes, v.poll), CountByOption(votes + [v], v.poll);
    KeysPush(votes, v, v.poll);
    forall o | o in after ensures Lookup(after, o) == Lookup(before[v.option := Lookup(before, v.option) + 1], o) {
      ValuePush(votes, v, v.poll, o);
    }
    SameCounts(after, before[v.option := Lookup(before, v.option) + 1]);
  }

  lemma OtherPush(votes: seq<Vote>, v: Vote, p: PollId)
    requires v.poll != p
    ensures CountByOption(votes + [v], p) == CountByOption(votes, p)
  {
    KeysPush(votes, v, p);
    forall o | o in CountByOption(votes, p)
      ensures Lookup(CountByOption(votes + [v], p), o) == Lookup(CountByOption(votes, p), o)
    {
      ValuePush(votes, v, p, o);
    }
    SameCounts(CountByOption(votes + [v], p), CountByOption(votes, p));
  }

  lemma ValuePush(votes: seq<Vote>, v: Vote, p: PollId, o: OptionId)
    ensures Lookup(CountByOption(votes + [v], p), o) == Lookup(CountByOption(votes, p), o) + Bit(VoteFor(p, o)(v))
  {
    CountByOptionIs(votes, p, o);
    CountByOptionIs(votes + [v], p, o);
    TallyPush(votes, v, VoteFor(p, o));
  }

  class PollRepository {
    var polls: map<PollId, Poll>

    constructor ()
      ensures polls == map[]
    {
      polls := map[];
    }

    method FindByID(p: PollId, up: bool) returns (r: Result<Option<Poll>, CastError>)
      ensures r == if !up then Failure(StoreError) else Success(if p in polls then Some(polls[p]) else None)
    {
      r := if !up then Failure(StoreError) else Success(if p in polls then Some(polls[p]) else None);
    }

    /** The document gets the fresh ID `id` and starts active, whatever status it was passed. */
    method Create(id: PollId, poll: Poll)
      requires id !in polls
      modifies this
      ensures polls == old(polls)[id := poll.(status := Active)]
    {
      polls := polls[id := poll.(status := Active)];
    }

    /** UpdateOne with `$set`, or DeleteOne. */
    method Write(p: PollId, kind: AdminKind, up: bool) returns (ok: bool)
      modifies this
      ensures ok == up
      ensures polls == if up then WritePoll(old(polls), p, kind) else old(polls)
      ensures var was, now := old(polls), polls;
        up && p in was && kind.UpdatePoll? ==>
          && p in now
          && now[p].title == (if kind.title.Some? then kind.title.value else was[p].title)
          && now[p].description == (if kind.description.Some? then kind.description.value else was[p].description)
          && now[p].options == was[p].options && now[p].creator == was[p].creator && now[p].status == was[p].status
      ensures var was, now := old(polls), polls;
        up && p in was && kind.ClosePoll? ==>
          && p in now && now[p].status.Closed?
          && now[p].title == was[p].title && now[p].description == was[p].description
          && now[p].options == was[p].options && now[p].creator == was[p].creator
      ensures p !in old(polls) ==> p !in polls
      ensures polls - {p} == old(polls) - {p}
      ensures up && kind.DeletePoll? ==> p !in polls
      ensures !up ==> polls == old(polls)
    {
      ok := up;
      if up && p in polls {
        match kind
        case UpdatePoll(title, description) =>
          var poll := polls[p];
          if title.Some? { poll := poll.(title := title.value); }
          if description.Some? { poll := poll.(description := description.value); }
          polls := polls[p := poll];
        case ClosePoll => polls := polls[p := polls[p].(status := Closed)];
        case DeletePoll => polls := polls - {p};
      }
    }
  }

  class RedisClient {
    var hashes: map<string, Hash>
    var channel: seq<Event>

    constructor ()
      ensures hashes == map[] && channel == []
    {
      hashes := map[];
      channel := [];
    }

    method HIncrBy(key: string, field: string, up: bool) returns (ok: bool)
      modifies this`hashes
      ensures ok <==> up && RedisStrings.HIncrBy(StringHash(old(hashes), key), field).Some?
      ensures hashes == if ok then old(hashes)[key := RedisStrings.HIncrBy(StringHash(old(hashes), key), field).value]
                        else old(hashes)
    {
      var next := RedisStrings.HIncrBy(StringHash(hashes, key), field);
      ok := up && next.Some?;
      if ok { hashes := hashes[key := next.value]; }
    }

    method HGetAll(key: string, up: bool) returns (r: Option<Hash>)
      ensures r == if up then Some(StringHash(hashes, key)) else None
    {
      r := if up then Some(StringHash(hashes, key)) else None;
    }

    method Del(key: string, up: bool)
      modifies this`hashes
      ensures hashes == if up then old(hashes) - {key} else old(hashes)
    {
      if up { hashes := hashes - {key}; }
    }

    method HSet(key: string, field: string, value: int, up: bool)
      modifies this`hashes
      ensures hashes ==
        if up then old(hashes)[key := StringHash(old(hashes), key)[field := PrintInt(value)]] else old(hashes)
    {
      if up { hashes := hashes[key := StringHash(hashes, key)[field := PrintInt(value)]]; }
    }

    method Publish(e: Event, up: bool) returns (ok: bool)
      modifies this`channel
      ensures ok == up && channel == old(channel) + if up then [e] else []
    {
      ok := up;
      if up { channel := channel + [e]; }
    }
  }

  /** The loops of `getRedisCountsForPoll`: zero for every option, then every field read. */
  method FillRedisCounts(data: Hash, options: seq<PollOption>) returns (counts: Counts)
    ensures counts == RedisCounts(ScanCounts(data), options)
  {
    counts := map[];
    for i := 0 to |options|
      invariant counts == map o | o in Ids(options[..i]) :: 0
    {
      assert options[..i + 1] == options[..i] + [options[i]];
      assert Ids(options[..i + 1]) == Ids(options[..i]) + {options[i].id};
      counts := counts[options[i].id := 0];
    }
    assert options[..|options|] == options;
    counts := Overlay(counts, data, Scan);
  }

  /** The loop of `getMongoCountsForPoll`. */
  method FillMongoCounts(found: Counts, options: seq<PollOption>) returns (counts: Counts)
    ensures counts == map o | o in Ids(options) :: Lookup(found, o)
  {
    counts := map[];
    for i := 0 to |options|
      invariant counts == map o | o in Ids(options[..i]) :: Lookup(found, o)
    {
      assert options[..i + 1] == options[..i] + [options[i]];
      assert Ids(options[..i + 1]) == Ids(options[..i]) + {options[i].id};
      counts := counts[options[i].id := Lookup(found, options[i].id)];
    }
    assert options[..|options|] == options;
  }

  method HasOption(options: seq<PollOption>, o: OptionId) returns (found: bool)
    ensures found <==> o in Ids(options)
  {
    found := false;
    for i := 0 to |options|
      invariant found <==> o in Ids(options[..i])
    {
      assert options[..i + 1] == options[..i] + [options[i]];
      assert Ids(options[..i + 1]) == Ids(options[..i]) + {options[i].id};
      if options[i].id == o { found := true; break; }
    }
    assert options[..|options|] == options;
  }
}
