/** Votes on a poll that was closed or deleted while Casts were under way: how many still land, exactly. */
module LateVotes {
  import opened Tallies
  import opened Models
  import opened VoteProtocol
  import opened VoteLinks
  import opened VoteUnique
  import opened VoteTheorems
  import opened PollLifecycle

  /** The tokens of the Casts that have read `p` as active and not tried their insert yet. */
  function CastTokens(casts: seq<Cast>, p: PollId): set<Token> {
    set c | c in casts && MayInsertOn(p)(c) :: c.token
  }

  /** Those of them with no stored vote. */
  function LateTokens(s: State, p: PollId): set<Token> { CastTokens(s.casts, p) - Tokens(s.votes, p) }

  /** The tokens that have voted on `p` or still may. */
  function Voters(s: State, p: PollId): set<Token> { Tokens(s.votes, p) + CastTokens(s.casts, p) }

  lemma CastMoveKeepsVoters(s: State, t: State, i: nat, p: PollId)
    requires CastMove(s, t, i, p)
    ensures Voters(t, p) <= Voters(s, p)
  {
    forall x | x in CastTokens(t.casts, p) ensures x in CastTokens(s.casts, p) {
      var c :| c in t.casts && MayInsertOn(p)(c) && c.token == x;
      if c !in s.casts { assert c == t.casts[i] && s.casts[i] in s.casts && MayInsertOn(p)(s.casts[i]); }
    }
    forall x | x in Tokens(t.votes, p) ensures x in Voters(s, p) {
      var v :| v in t.votes && v.poll == p && v.token == x;
      if v !in s.votes { assert s.casts[i] in s.casts && MayInsertOn(p)(s.casts[i]); }
    }
  }

  lemma OtherMoveKeepsVoters(s: State, t: State, p: PollId)
    requires OtherMove(s, t)
    ensures Voters(t, p) <= Voters(s, p)
  {
    forall x | x in CastTokens(t.casts, p) ensures x in CastTokens(s.casts, p) {
      var c :| c in t.casts && MayInsertOn(p)(c) && c.token == x;
      if t.casts != s.casts { assert t.casts == s.casts + [t.casts[|s.casts|]]; }
    }
    forall x | x in Tokens(t.votes, p) ensures x in Tokens(s.votes, p) {
      var v :| v in t.votes && v.poll == p && v.token == x;
    }
  }

  lemma {:induction false} VotersKept(s: State, run: seq<Step>, p: PollId)
    requires Retired(s, p)
    ensures Voters(Exec(s, run), p) <= Voters(s, p)
    decreases |run|
  {
    if run != [] {
      var front, a := run[..|run| - 1], run[|run| - 1];
      VotersKept(s, front, p);
      StatusAbsorbing(s, front, p);
      var m := Exec(s, front);
      if !a.CastStep? {
        OtherStepMoves(m, a);
        OtherMoveKeepsVoters(m, Apply(m, a), p);
      } else if a.i < |m.casts| {
        CastStepMoves(m, a.i, a.ok, p);
        if Apply(m, a) != m { CastMoveKeepsVoters(m, Apply(m, a), a.i, p); }
      }
    }
  }

  lemma CountIsTokens(s: State, p: PollId)
    requires Reachable(s)
    ensures CountByPoll(s.votes, p) == |Tokens(s.votes, p)|
  {
    ReachableOk(s);
    TokensCounted(s.votes, p);
  }

  lemma {:induction false} AtMostLate(s: State, run: seq<Step>, p: PollId)
    requires Reachable(s) && Retired(s, p)
    ensures CountByPoll(Exec(s, run).votes, p) <= CountByPoll(s.votes, p) + |LateTokens(s, p)|
  {
    var t := Exec(s, run);
    ReachableRun(s, run);
    CountIsTokens(s, p);
    CountIsTokens(t, p);
    VotersKept(s, run, p);
    Smaller(Tokens(t.votes, p), Voters(s, p));
    assert Voters(s, p) == Tokens(s.votes, p) + LateTokens(s, p) && Tokens(s.votes, p) !! LateTokens(s, p);
  }

  lemma {:induction false} Smaller<T>(small: set<T>, big: set<T>)
    requires small <= big
    ensures |small| <= |big|
  {
    assert big == small + (big - small);
  }

  // ---- they do land -------------------------------------------------------------------------

  /** The run in which Cast `i` goes on to its insert. */
  lemma LandOne(s: State, i: nat, p: PollId) returns (run: seq<Step>)
    requires i < |s.casts| && MayInsertOn(p)(s.casts[i]) && !HasVoted(s.votes, p, s.casts[i].token)
    ensures var t := Exec(s, run);
      t.votes == s.votes + [VoteOf(s.casts[i])] && |t.casts| == |s.casts|
      && t.casts == s.casts[i := t.casts[i]] && !MayInsert(t.casts[i])
  {
    var a := CastStep(i, true);
    assert [a][..0] == [] && Exec(s, [a]) == Apply(s, a);
    if s.casts[i].pc.NotVoted? {
      run := [a];
      assert Apply(s, a) == Insert(s, i, true);
    } else {
      var m := WithCast(s, i, s.casts[i].(pc := NotVoted));
      assert Apply(s, a) == m;
      run := [a, a];
      assert run[..1] == [a] && Exec(s, run) == Apply(m, a) == Insert(m, i, true);
    }
  }

  lemma LandedTokens(s: State, t: State, i: nat, p: PollId)
    requires i < |s.casts| == |t.casts| && MayInsertOn(p)(s.casts[i])
    requires t.votes == s.votes + [VoteOf(s.casts[i])] && t.casts == s.casts[i := t.casts[i]] && !MayInsert(t.casts[i])
    ensures LateTokens(t, p) == LateTokens(s, p) - {s.casts[i].token}
  {
    var x := s.casts[i].token;
    assert Tokens(t.votes, p) == Tokens(s.votes, p) + {x} by {
      assert VoteOf(s.casts[i]) in t.votes;
      assert forall v :: v in t.votes <==> v in s.votes || v == VoteOf(s.casts[i]);
    }
    forall y | y != x ensures y in CastTokens(t.casts, p) <==> y in CastTokens(s.casts, p) {
      if y in CastTokens(t.casts, p) {
        var c :| c in t.casts && MayInsertOn(p)(c) && c.token == y;
        assert c in s.casts;
      }
      if y in CastTokens(s.casts, p) {
        var c :| c in s.casts && MayInsertOn(p)(c) && c.token == y;
        var j :| 0 <= j < |s.casts| && s.casts[j] == c;
        assert t.casts[j] == c;
      }
    }
  }

  /** Every late token can vote: the bound is reached. */
  lemma {:induction false} LandAll(s: State, p: PollId) returns (run: seq<Step>)
    ensures CountByPoll(Exec(s, run).votes, p) == CountByPoll(s.votes, p) + |LateTokens(s, p)|
    decreases |LateTokens(s, p)|
  {
    if x :| x in LateTokens(s, p) {
      var c :| c in s.casts && MayInsertOn(p)(c) && c.token == x;
      var i: nat :| i < |s.casts| && s.casts[i] == c;
      var first := LandOne(s, i, p);
      var t := Exec(s, first);
      LandedTokens(s, t, i, p);
      TallyPush(s.votes, VoteOf(c), OnPoll(p));
      var rest := LandAll(t, p);
      run := first + rest;
      ExecJoin(s, first, rest);
    } else {
      run := [];
    }
  }

  /** After Close's write or Delete's DeleteOne, whatever runs then, at most the late tokens add a vote and in
      some run they all do; so a vote lands late in some run if and only if some Cast has read the poll as
      active, has not tried its insert, and its token has no stored vote. */
  lemma LateVotesExactly(s: State, p: PollId)
    requires Reachable(s) && Retired(s, p)
    ensures forall run :: CountByPoll(Exec(s, run).votes, p) <= CountByPoll(s.votes, p) + |LateTokens(s, p)|
    ensures exists run :: CountByPoll(Exec(s, run).votes, p) == CountByPoll(s.votes, p) + |LateTokens(s, p)|
    ensures (exists run :: CountByPoll(Exec(s, run).votes, p) > CountByPoll(s.votes, p)) <==>
              exists i: nat :: i < |s.casts| && MayInsertOn(p)(s.casts[i]) && !HasVoted(s.votes, p, s.casts[i].token)
  {
    forall run ensures CountByPoll(Exec(s, run).votes, p) <= CountByPoll(s.votes, p) + |LateTokens(s, p)| {
      AtMostLate(s, run, p);
    }
    var all := LandAll(s, p);
    assert CountByPoll(Exec(s, all).votes, p) == CountByPoll(s.votes, p) + |LateTokens(s, p)|;
    LateTokensExist(s, p);
  }

  lemma LateTokensExist(s: State, p: PollId)
    ensures |LateTokens(s, p)| > 0 <==>
              exists i: nat :: i < |s.casts| && MayInsertOn(p)(s.casts[i]) && !HasVoted(s.votes, p, s.casts[i].token)
  {
    if i: nat :| i < |s.casts| && MayInsertOn(p)(s.casts[i]) && !HasVoted(s.votes, p, s.casts[i].token) {
      assert s.casts[i] in s.casts && s.casts[i].token in LateTokens(s, p);
    }
    if x :| x in LateTokens(s, p) {
      var c :| c in s.casts && MayInsertOn(p)(c) && c.token == x;
      var i: nat :| i < |s.casts| && s.casts[i] == c;
    }
  }
}
