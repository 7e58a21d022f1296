/** The hub as the source has it: the cases of its select loop over rooms, queues and channels it updates in
    place, each proved to be the hub machine's own steps. */
module HubService {
  import opened Models
  import opened HubMachine
  import opened HubInvariants
  import opened HubTheorems
  import opened HubSteps

  ghost predicate Leads<M(!new)>(s: State<M>, t: State<M>) { exists run :: t == Exec(s, run) }

  lemma LeadsSelf<M(!new)>(s: State<M>)
    ensures Leads(s, s)
  {
    assert Exec(s, []) == s;
  }

  lemma LeadsStep<M(!new)>(s: State<M>, t: State<M>, a: Step<M>)
    requires Leads(s, t)
    ensures Leads(s, Apply(t, a))
  {
    var run :| t == Exec(s, run);
    assert (run + [a])[..|run|] == run;
    assert Exec(s, run + [a]) == Apply(t, a);
  }

  lemma QueueBounded<M(!new)>(s: State<M>)
    requires Reachable(s)
    ensures |s.unregister| <= QUEUE_CAP
  {
    ReachableOk(s);
  }

  /** A target not yet reached is an open client of the room. */
  lemma TargetOpen<M(!new)>(s: State<M>, c: ClientId)
    requires Reachable(s) && s.phase.Sending? && c in s.phase.targets
    ensures c < |s.conns| && !s.conns[c].closed && |s.unregister| <= QUEUE_CAP
  {
    ReachableOk(s);
    assert Member(s, c, s.phase.msg.poll) && ConnPlaced(s, c);
  }

  predicate IsFull<M>(conns: seq<Conn<M>>, c: ClientId) { c < |conns| && |conns[c].buf| >= SEND_CAP }

  /** The targets whose buffers are full, in order. */
  function FullOnes<M>(conns: seq<Conn<M>>, targets: seq<ClientId>): seq<ClientId> {
    if targets == [] then [] else
      var n := |targets| - 1;
      FullOnes(conns, targets[..n]) + if IsFull(conns, targets[n]) then [targets[n]] else []
  }

  lemma FullPush<M>(conns: seq<Conn<M>>, targets: seq<ClientId>, i: nat)
    requires i < |targets|
    ensures FullOnes(conns, targets[..i + 1]) ==
            FullOnes(conns, targets[..i]) + if IsFull(conns, targets[i]) then [targets[i]] else []
  {
    assert targets[..i + 1][..i] == targets[..i];
  }

  lemma {:induction false} FullGrow<M>(conns: seq<Conn<M>>, targets: seq<ClientId>, i: nat)
    requires i <= |targets|
    ensures |FullOnes(conns, targets[..i])| <= |FullOnes(conns, targets)|
    decreases |targets| - i
  {
    if i < |targets| {
      FullPush(conns, targets, i);
      FullGrow(conns, targets, i + 1);
    } else {
      assert targets[..i] == targets;
    }
  }

  lemma FullStep<M>(conns: seq<Conn<M>>, targets: seq<ClientId>, i: nat)
    requires i < |targets|
    ensures targets[i..] == [targets[i]] + targets[i + 1..]
    ensures FullOnes(conns, targets[..i + 1]) ==
            FullOnes(conns, targets[..i]) + if IsFull(conns, targets[i]) then [targets[i]] else []
    ensures |FullOnes(conns, targets[..i + 1])| <= |FullOnes(conns, targets)|
  {
    FullPush(conns, targets, i);
    FullGrow(conns, targets, i + 1);
  }

  /** Neither state of the clients differs on a target from number `i` on. */
  ghost predicate SameFrom<M>(before: seq<Conn<M>>, after: seq<Conn<M>>, targets: seq<ClientId>, i: nat) {
    && |before| == |after|
    && forall j :: i <= j < |targets| ==> targets[j] < |before| && after[targets[j]] == before[targets[j]]
  }

  function FullSet<M>(conns: seq<Conn<M>>, targets: seq<ClientId>): set<ClientId> {
    set c | c in targets && IsFull(conns, c)
  }

  lemma FullSetPush<M>(conns: seq<Conn<M>>, front: seq<ClientId>, last: ClientId)
    ensures FullSet(conns, front + [last]) == FullSet(conns, front) + if IsFull(conns, last) then {last} else {}
    ensures last in FullSet(conns, front) ==> last in front
  {
  }

  /** As many as the full buffers of the room, whatever the order. */
  lemma {:induction false} FullCount<M>(conns: seq<Conn<M>>, targets: seq<ClientId>)
    requires forall i, j :: 0 <= i < j < |targets| ==> targets[i] != targets[j]
    ensures |FullOnes(conns, targets)| == |FullSet(conns, targets)|
    decreases |targets|
  {
    if targets != [] {
      var n := |targets| - 1;
      var front, last := targets[..n], targets[n];
      assert targets == front + [last] && last !in front;
      FullCount(conns, front);
      FullSetPush(conns, front, last);
    }
  }

  class Hub<M(!new)> {
    var rooms: map<PollId, set<ClientId>>
    var register: seq<ClientId>
    var unregister: seq<ClientId>
    var broadcast: seq<Msg<M>>
    var conns: seq<Conn<M>>
    ghost var phase: Phase<M>
    var taken: seq<Msg<M>>

    constructor ()
      ensures Valid() && Now() == Init()
    {
      rooms, register, unregister, broadcast, conns := map[], [], [], [], [];
      phase, taken := Selecting, [];
      new;
      LeadsSelf(Init<M>());
      assert Now() == Exec(Init<M>(), []);
    }

    ghost function Now(): State<M>
      reads this
    {
      State(conns, rooms, register, unregister, broadcast, phase, false, taken)
    }

    ghost predicate Valid()
      reads this
    {
      Reachable(Now())
    }

    /** The register case: the client joins the room of its own poll, and that poll's count goes up by one. */
    method HandleRegister()
      requires Valid() && phase.Selecting? && register != []
      modifies this
      ensures Valid() && Now() == Admit(old(Now()))
      ensures var c, was := old(register[0]), old(conns);
        && c < |was| == |conns| && conns[c].place.InRoom? && !conns[c].closed && conns[c].poll == was[c].poll
        && was[c].poll in rooms && c in rooms[was[c].poll]
        && forall d: nat :: d < |was| && d != c ==> conns[d] == was[d]
      ensures forall q :: |Watching(Now(), q)| ==
                          |Watching(old(Now()), q)| + if q == old(conns)[old(register[0])].poll then 1 else 0
    {
      AdmitsExactly(Now());
      forall q { AdmissionCounts(Now(), q); }
      TakeRegistration();
    }

    method TakeRegistration()
      requires Valid() && phase.Selecting? && register != []
      modifies this
      ensures Valid() && Now() == Admit(old(Now()))
    {
      ReachableOk(Now());
      ReachableStep(Now(), TakeRegister);
      var c := register[0];
      assert c in register;
      register := register[1..];
      var p := conns[c].poll;
      if p !in rooms { rooms := rooms[p := {}]; }
      rooms := rooms[p := rooms[p] + {c}];
      conns := conns[c := conns[c].(place := InRoom, regAt := |RoomLog(taken, p)|)];
    }

    /** The unregister case: a client of the room leaves it for good, and its poll's count goes down by one; anyone
        else's unregistration changes nothing. */
    method HandleUnregister()
      requires Valid() && phase.Selecting? && unregister != []
      modifies this
      ensures Valid() && Now() == Dismiss(old(Now()))
      ensures var c, was := old(unregister[0]), old(conns);
        && c < |was| == |conns|
        && (if was[c].place.InRoom? then conns[c].place.Gone? && conns[c].closed else conns[c] == was[c])
        && forall d: nat :: d < |was| && d != c ==> conns[d] == was[d]
      ensures forall q :: var k := old(conns)[old(unregister[0])];
                |Watching(Now(), q)| == |Watching(old(Now()), q)| - if q == k.poll && k.place.InRoom? then 1 else 0
    {
      DismissesExactly(Now());
      forall q { DismissalCounts(Now(), q); }
      TakeUnregistration();
    }

    method TakeUnregistration()
      requires Valid() && phase.Selecting? && unregister != []
      modifies this
      ensures Valid() && Now() == Dismiss(old(Now()))
    {
      ReachableOk(Now());
      ReachableStep(Now(), TakeUnregister);
      var c := unregister[0];
      assert c in unregister && ConnPlaced(Now(), c);
      unregister := unregister[1..];
      var p := conns[c].poll;
      if p in rooms {
        if c in rooms[p] {
          rooms := rooms[p := rooms[p] - {c}];
          conns := conns[c := conns[c].(place := Gone, closed := true)];
          if rooms[p] == {} { rooms := rooms - {p}; }
        }
      }
    }

    method ClientCount(p: PollId) returns (n: nat)
      requires Valid()
      ensures n == |Watching(Now(), p)|
    {
      RoomsAreClients(Now(), p);
      n := if p in rooms then |rooms[p]| else 0;
    }

    /** The targets of a room, collected before any send. */
    method Targets(p: PollId) returns (targets: seq<ClientId>)
      ensures Lists(targets, Room(Now(), p))
    {
      targets := [];
      var rest := if p in rooms then rooms[p] else {};
      while rest != {}
        invariant forall i, j :: 0 <= i < j < |targets| ==> targets[i] != targets[j]
        invariant forall c :: c in targets <==> c in Room(Now(), p) && c !in rest
        invariant rest <= Room(Now(), p)
        decreases |rest|
      {
        var c :| c in rest;
        targets := targets + [c];
        rest := rest - {c};
      }
    }

    /** A whole broadcast, with nothing else running: it finishes without waiting if and only if the
        pending unregistrations and the full buffers together fit the queue, and then queues exactly the
        full ones; otherwise the hub is left blocked on its own queue. */
    method HandleBroadcast() returns (finished: bool, ghost order: seq<ClientId>)
      requires Valid() && phase.Selecting? && broadcast != []
      modifies this
      ensures Valid() && Leads(old(Now()), Now())
      ensures Lists(order, Room(old(Now()), old(broadcast[0].poll)))
      ensures finished <==> |old(unregister)| + |FullSet(old(conns), order)| <= 256
      ensures finished ==> phase.Selecting? && unregister == old(unregister) + FullOnes(old(conns), order)
      ensures !finished ==> phase.Evicting? && |unregister| == 256
      ensures taken == old(taken) + [old(broadcast[0])] && broadcast == old(broadcast[1..])
    {
      ghost var before := Now();
      var targets, msg := BeginBroadcast();
      order := targets;
      FullCount(conns, targets);
      finished := OfferAll(targets, msg, before);
      if finished {
        ghost var last := Now();
        phase := Selecting;
        Follow(before, last, SendNext);
      }
    }

    method BeginBroadcast() returns (targets: seq<ClientId>, msg: Msg<M>)
      requires Valid() && phase.Selecting? && broadcast != []
      modifies this
      ensures Valid() && Leads(old(Now()), Now()) && msg == old(broadcast[0])
      ensures Lists(targets, Room(old(Now()), msg.poll)) && forall j :: 0 <= j < |targets| ==> targets[j] < |conns|
      ensures phase == Sending(msg, targets) && conns == old(conns) && unregister == old(unregister)
      ensures taken == old(taken) + [msg] && broadcast == old(broadcast[1..])
    {
      ghost var before := Now();
      ReachableOk(before);
      msg := broadcast[0];
      targets := Targets(msg.poll);
      forall j | 0 <= j < |targets| ensures targets[j] < |conns| {
        assert targets[j] in targets && Member(before, targets[j], msg.poll);
      }
      broadcast := broadcast[1..];
      phase := Sending(msg, targets);
      taken := taken + [msg];
      LeadsSelf(before);
      Follow(before, before, TakeBroadcast(targets));
    }

    /** The loop over the targets. */
    method OfferAll(targets: seq<ClientId>, msg: Msg<M>, ghost before: State<M>) returns (finished: bool)
      requires Valid() && phase == Sending(msg, targets) && Leads(before, Now())
      requires forall j :: 0 <= j < |targets| ==> targets[j] < |conns|
      requires forall i, j :: 0 <= i < j < |targets| ==> targets[i] != targets[j]
      modifies this
      ensures Valid() && Leads(before, Now())
      ensures finished <==> |old(unregister)| + |FullOnes(old(conns), targets)| <= QUEUE_CAP
      ensures finished ==> phase == Sending(msg, []) && unregister == old(unregister) + FullOnes(old(conns), targets)
      ensures !finished ==> phase.Evicting? && |unregister| == QUEUE_CAP
      ensures taken == old(taken) && broadcast == old(broadcast)
    {
      var i := 0;
      QueueBounded(Now());
      assert targets[..|targets|] == targets;
      while i < |targets|
        invariant i <= |targets|
        invariant Underway(old(conns), old(unregister), old(taken), old(broadcast), targets, msg, i, before)
      {
        FullGrow(old(conns), targets, i + 1);
        var sent := OfferNext(old(conns), old(unregister), old(taken), old(broadcast), targets, msg, i, before);
        if !sent { return false; }
        i := i + 1;
      }
      finished := true;
    }

    /** The loop has dealt with the first `i` targets, and its full ones are queued after what was pending. */
    ghost predicate Underway(was: seq<Conn<M>>, pending: seq<ClientId>, log: seq<Msg<M>>, queue: seq<Msg<M>>,
                             targets: seq<ClientId>, msg: Msg<M>, i: nat, before: State<M>)
      requires i <= |targets|
      reads this
    {
      && Valid() && Leads(before, Now()) && phase == Sending(msg, targets[i..])
      && unregister == pending + FullOnes(was, targets[..i]) && |unregister| <= QUEUE_CAP
      && SameFrom(was, conns, targets, i) && taken == log && broadcast == queue
    }

    method OfferNext(ghost was: seq<Conn<M>>, ghost pending: seq<ClientId>, ghost log: seq<Msg<M>>,
                     ghost queue: seq<Msg<M>>,
                     targets: seq<ClientId>, msg: Msg<M>, i: nat, ghost before: State<M>) returns (sent: bool)
      requires i < |targets| && Underway(was, pending, log, queue, targets, msg, i, before)
      requires forall j, k :: 0 <= j < k < |targets| ==> targets[j] != targets[k]
      modifies this
      ensures sent <==> |pending| + |FullOnes(was, targets[..i + 1])| <= QUEUE_CAP
      ensures sent ==> Underway(was, pending, log, queue, targets, msg, i + 1, before)
      ensures !sent ==> Valid() && Leads(before, Now()) && phase.Evicting? && |unregister| == QUEUE_CAP
      ensures taken == log && broadcast == queue
    {
      FullStep(was, targets, i);
      sent := Offer(targets[i], msg, targets[i + 1..], before);
    }

    ghost method Follow(before: State<M>, was: State<M>, a: Step<M>)
      requires Reachable(was) && Leads(before, was) && Now() == Apply(was, a)
      ensures Valid() && Leads(before, Now())
    {
      ReachableStep(was, a);
      LeadsStep(before, was, a);
    }

    /** One target: the non-blocking send, or the eviction, which can block. */
    method Offer(c: ClientId, msg: Msg<M>, rest: seq<ClientId>, ghost before: State<M>) returns (sent: bool)
      requires Valid() && phase == Sending(msg, [c] + rest) && c < |conns| && Leads(before, Now())
      modifies this
      ensures Valid() && Leads(before, Now()) && |conns| == |old(conns)|
      ensures sent <==> |old(conns)[c].buf| < 256 || |old(unregister)| < 256
      ensures sent ==> phase == Sending(msg, rest)
      ensures sent ==> unregister == old(unregister) + if |old(conns)[c].buf| >= 256 then [c] else []
      ensures !sent ==> phase.Evicting? && unregister == old(unregister)
      ensures |unregister| <= 256
      ensures conns[c].buf == old(conns)[c].buf + if |old(conns)[c].buf| < 256 then [msg.payload] else []
      ensures forall d: nat :: d < |conns| && d != c ==> conns[d] == old(conns[d])
      ensures taken == old(taken) && broadcast == old(broadcast)
    {
      ghost var start := Now();
      assert c in start.phase.targets;
      TargetOpen(start, c);
      if |conns[c].buf| < SEND_CAP {
        conns := conns[c := conns[c].(buf := conns[c].buf + [msg.payload], offered := conns[c].offered + [true],
                                      enqueued := conns[c].enqueued + [msg.payload])];
        phase := Sending(msg, rest);
        Follow(before, start, SendNext);
        return true;
      }
      conns := conns[c := conns[c].(offered := conns[c].offered + [false])];
      phase := Evicting(msg, c, rest);
      Follow(before, start, SendNext);
      if |unregister| >= QUEUE_CAP { return false; }
      ghost var evicting := Now();
      unregister := unregister + [c];
      phase := Sending(msg, rest);
      Follow(before, evicting, PushEviction);
      sent := true;
    }
  }
}
