/** When a broadcast finishes and when it blocks the hub, with readers and write pumps running beside it. */
module HubBlocking {
  import opened Tallies
  import opened Models
  import opened HubMachine
  import opened HubInvariants

  /** The hub waits for room in the queue that only it empties. */
  predicate Blocked<M>(s: State<M>) { s.phase.Evicting? && |s.unregister| >= QUEUE_CAP }

  /** A run within one broadcast, which may finish with its last step. */
  predicate Within<M>(s: State<M>, run: seq<Step<M>>) {
    run != [] ==> Within(s, run[..|run| - 1]) && !Exec(s, run[..|run| - 1]).phase.Selecting?
  }

  /** The step finds a full buffer. */
  predicate Misses<M>(s: State<M>, a: Step<M>) {
    a.SendNext? && s.phase.Sending? && s.phase.targets != [] && s.phase.targets[0] < |s.conns|
    && !s.conns[s.phase.targets[0]].closed && |s.conns[s.phase.targets[0]].buf| >= SEND_CAP
  }

  /** The step is a read pump's unregistration. */
  predicate Exits<M>(s: State<M>, a: Step<M>) {
    a.ReaderExit? && a.c < |s.conns| && s.conns[a.c].reading && |s.unregister| < QUEUE_CAP
  }

  function CountMisses<M>(s: State<M>, run: seq<Step<M>>): nat {
    if run == [] then 0 else
      CountMisses(s, run[..|run| - 1]) + Bit(Misses(Exec(s, run[..|run| - 1]), run[|run| - 1]))
  }

  function CountExits<M>(s: State<M>, run: seq<Step<M>>): nat {
    if run == [] then 0 else
      CountExits(s, run[..|run| - 1]) + Bit(Exits(Exec(s, run[..|run| - 1]), run[|run| - 1]))
  }

  /** The unregistrations queued or about to be. */
  function Pending<M>(s: State<M>): nat { |s.unregister| + Bit(s.phase.Evicting?) }

  lemma StepAccounts<M>(s: State<M>, a: Step<M>)
    requires !s.phase.Selecting?
    ensures s.unregister <= Apply(s, a).unregister
    ensures Pending(Apply(s, a)) == Pending(s) + Bit(Misses(s, a)) + Bit(Exits(s, a))
  {
    if IsPumpStep(a) {
      PumpStepIs(s, a);
    } else {
      match a {
        case Connect(_) =>
        case TakeRegister =>
        case TakeUnregister =>
        case TakeBroadcast(_) =>
        case SendNext => SendAccounts(s);
        case PushEviction =>
        case Enqueue(_) =>
        case ReaderExit(_) =>
      }
    }
  }

  lemma SendAccounts<M>(s: State<M>)
    requires !s.phase.Selecting?
    ensures Send(s).unregister == s.unregister
    ensures Pending(Send(s)) == Pending(s) + Bit(Misses(s, SendNext))
  {
  }

  /** During a broadcast nothing leaves the unregister queue, and it grows by the full buffers met and the
      readers that end. */
  lemma {:induction false} BroadcastAccounts<M>(s: State<M>, run: seq<Step<M>>)
    requires Within(s, run)
    ensures s.unregister <= Exec(s, run).unregister
    ensures Pending(Exec(s, run)) == Pending(s) + CountMisses(s, run) + CountExits(s, run)
    decreases |run|
  {
    if run != [] {
      BroadcastAccounts(s, run[..|run| - 1]);
      StepAccounts(Exec(s, run[..|run| - 1]), run[|run| - 1]);
    }
  }

  lemma {:induction false} ReachableRun<M(!new)>(s: State<M>, run: seq<Step<M>>)
    requires Reachable(s)
    ensures Reachable(Exec(s, run))
    decreases |run|
  {
    if run != [] {
      ReachableRun(s, run[..|run| - 1]);
      ReachableStep(Exec(s, run[..|run| - 1]), run[|run| - 1]);
    }
  }

  /** In every interleaving, from any point of a broadcast: the hub has blocked in it if and only if what was
      pending, the full buffers met since and the readers that ended since are together more than the queue holds. */
  lemma {:induction false} BlocksExactly<M(!new)>(s: State<M>, run: seq<Step<M>>)
    requires Reachable(s) && Within(s, run)
    ensures Blocked(Exec(s, run)) <==> Pending(s) + CountMisses(s, run) + CountExits(s, run) > 256
  {
    BroadcastAccounts(s, run);
    ReachableRun(s, run);
    ReachableOk(Exec(s, run));
  }

  // ---- progress -----------------------------------------------------------------------------

  /** What is left of a broadcast, in steps of the hub. */
  function Left<M>(s: State<M>): nat {
    match s.phase
    case Selecting => 0
    case Sending(_, targets) => 2 * |targets| + 1
    case Evicting(_, _, targets) => 2 * |targets| + 2
  }

  predicate IsHubStep<M>(s: State<M>, a: Step<M>) {
    if s.phase.Evicting? then a.PushEviction? else a.SendNext?
  }

  /** A hub that is not blocked moves on, and only the hub moves its broadcast on. */
  lemma HubMovesOn<M(!new)>(s: State<M>, a: Step<M>)
    requires Reachable(s) && !s.phase.Selecting?
    ensures if IsHubStep(s, a) && !Blocked(s) then Left(Apply(s, a)) < Left(s) else Apply(s, a).phase == s.phase
  {
    ReachableOk(s);
    if IsPumpStep(a) {
      PumpStepIs(s, a);
    } else if a.SendNext? {
      SendMovesOn(s);
    } else {
      match a {
        case Connect(_) =>
        case TakeRegister =>
        case TakeUnregister =>
        case TakeBroadcast(_) =>
        case PushEviction =>
        case Enqueue(_) =>
        case ReaderExit(_) =>
      }
    }
  }

  lemma SendMovesOn<M>(s: State<M>)
    requires Invariant(s) && !s.phase.Selecting?
    ensures if s.phase.Sending? then Left(Send(s)) < Left(s) else Send(s) == s
  {
    if s.phase.Sending? && s.phase.targets != [] {
      var c := s.phase.targets[0];
      assert Member(s, c, s.phase.msg.poll) && ConnPlaced(s, c);
    }
  }

  function CountHubSteps<M>(s: State<M>, run: seq<Step<M>>): nat {
    if run == [] then 0 else
      var m := Exec(s, run[..|run| - 1]);
      CountHubSteps(s, run[..|run| - 1]) + Bit(IsHubStep(m, run[|run| - 1]))
  }

  /** A broadcast that never blocks is over after at most two hub steps a target and one more. */
  lemma {:induction false} FinishesUnlessBlocked<M(!new)>(s: State<M>, run: seq<Step<M>>)
    requires Reachable(s) && Within(s, run)
    requires Pending(s) + CountMisses(s, run) + CountExits(s, run) <= 256
    ensures CountHubSteps(s, run) + Left(Exec(s, run)) <= Left(s)
    decreases |run|
  {
    if run != [] {
      var front := run[..|run| - 1];
      FinishesUnlessBlocked(s, front);
      ReachableRun(s, front);
      BlocksExactly(s, front);
      HubMovesOn(Exec(s, front), run[|run| - 1]);
    }
  }

  // ---- for ever -----------------------------------------------------------------------------

  lemma BlockedStep<M>(s: State<M>, a: Step<M>)
    requires Blocked(s)
    ensures Apply(s, a).phase == s.phase && Apply(s, a).unregister == s.unregister && Apply(s, a).taken == s.taken
  {
    if IsPumpStep(a) {
      PumpStepIs(s, a);
    } else {
      match a {
        case Connect(_) =>
        case TakeRegister =>
        case TakeUnregister =>
        case TakeBroadcast(_) =>
        case SendNext =>
        case PushEviction =>
        case Enqueue(_) =>
        case ReaderExit(_) =>
      }
    }
  }

  /** A blocked hub stays blocked, whatever else runs: it is the queue's only reader. */
  lemma {:induction false} FullQueueBlocks<M>(s: State<M>, run: seq<Step<M>>)
    requires Blocked(s)
    ensures Exec(s, run).phase == s.phase && Exec(s, run).unregister == s.unregister && Exec(s, run).taken == s.taken
    decreases |run|
  {
    if run != [] {
      FullQueueBlocks(s, run[..|run| - 1]);
      BlockedStep(Exec(s, run[..|run| - 1]), run[|run| - 1]);
    }
  }

  /** Between broadcasts: one client of `p` in its room, `n` messages in its buffer, `k` unregistrations queued. */
  ghost predicate Filled<M(!new)>(s: State<M>, p: PollId, n: nat, k: nat) {
    && Reachable(s) && s.phase.Selecting? && s.broadcast == [] && s.rooms == map[p := {0}]
    && |s.conns| == 1 && s.conns[0].poll == p && !s.conns[0].closed
    && |s.conns[0].buf| == n && |s.unregister| == k
  }

  lemma OneClient<M(!new)>(p: PollId) returns (s: State<M>)
    ensures Filled(s, p, 0, 0)
  {
    assert Exec(Init<M>(), []) == Init<M>();
    var joined := Join(Init<M>(), p);
    ReachableStep(Init<M>(), Connect(p));
    s := Admit(joined);
    ReachableStep(joined, TakeRegister);
    assert {} + {0} == {0};
  }

  /** The next broadcast to the room begins. */
  lemma Begins<M(!new)>(s: State<M>, p: PollId, n: nat, k: nat, msg: Msg<M>) returns (t: State<M>)
    requires Filled(s, p, n, k) && msg.poll == p
    ensures Reachable(t) && t == s.(phase := Sending(msg, [0]), taken := s.taken + [msg])
  {
    var posted := Post(s, msg);
    ReachableStep(s, Enqueue(msg));
    assert Lists([0], Room(posted, p));
    t := Start(posted, [0]);
    ReachableStep(posted, TakeBroadcast([0]));
    assert posted.broadcast == [msg] && posted.broadcast[1..] == [];
  }

  lemma Delivers<M(!new)>(s: State<M>, p: PollId, n: nat, k: nat, msg: Msg<M>) returns (t: State<M>)
    requires Filled(s, p, n, k) && msg.poll == p && n < SEND_CAP
    ensures Filled(t, p, n + 1, k)
  {
    var a := Begins(s, p, n, k, msg);
    var b := Send(a);
    ReachableStep(a, SendNext);
    t := Send(b);
    ReachableStep(b, SendNext);
  }

  /** A full buffer: the client's unregistration is about to be queued. */
  lemma Overflows<M(!new)>(s: State<M>, p: PollId, k: nat, msg: Msg<M>) returns (t: State<M>)
    requires Filled(s, p, SEND_CAP, k) && msg.poll == p
    ensures Reachable(t) && t.phase == Evicting(msg, 0, []) && |t.unregister| == k
    ensures t.broadcast == [] && t.rooms == s.rooms && |t.conns| == 1
    ensures t.conns[0].poll == p && !t.conns[0].closed && t.conns[0].buf == s.conns[0].buf
  {
    var a := Begins(s, p, SEND_CAP, k, msg);
    t := Send(a);
    ReachableStep(a, SendNext);
  }

  lemma EvictsAgain<M(!new)>(s: State<M>, p: PollId, k: nat, msg: Msg<M>) returns (t: State<M>)
    requires Filled(s, p, SEND_CAP, k) && msg.poll == p && k < QUEUE_CAP
    ensures Filled(t, p, SEND_CAP, k + 1)
  {
    var a := Overflows(s, p, k, msg);
    var b := Evict(a);
    ReachableStep(a, PushEviction);
    t := Send(b);
    ReachableStep(b, SendNext);
  }

  lemma {:induction false} FillsUp<M(!new)>(s: State<M>, p: PollId, n: nat, msg: Msg<M>) returns (t: State<M>)
    requires Filled(s, p, n, 0) && msg.poll == p && n <= SEND_CAP
    ensures Filled(t, p, SEND_CAP, 0)
    decreases SEND_CAP - n
  {
    t := s;
    if n < SEND_CAP {
      t := Delivers(s, p, n, 0, msg);
      t := FillsUp(t, p, n + 1, msg);
    }
  }

  lemma {:induction false} QueuesUp<M(!new)>(s: State<M>, p: PollId, k: nat, msg: Msg<M>) returns (t: State<M>)
    requires Filled(s, p, SEND_CAP, k) && msg.poll == p && k <= QUEUE_CAP
    ensures Filled(t, p, SEND_CAP, QUEUE_CAP)
    decreases QUEUE_CAP - k
  {
    t := s;
    if k < QUEUE_CAP {
      t := EvictsAgain(s, p, k, msg);
      t := QueuesUp(t, p, k + 1, msg);
    }
  }

  /** One client that nobody drains is enough to block the hub for ever: its unregistration is queued again by
      every broadcast that finds its buffer full before the hub takes the first one. */
  lemma DeadlockWithOneClient<M(!new)>(msg: Msg<M>) returns (t: State<M>)
    ensures Reachable(t) && |t.conns| == 1 && t.phase.Evicting? && |t.unregister| == 256
    ensures forall run :: Exec(t, run).phase == t.phase && Exec(t, run).taken == t.taken
  {
    var a := OneClient<M>(msg.poll);
    var b := FillsUp(a, msg.poll, 0, msg);
    var c := QueuesUp(b, msg.poll, 0, msg);
    t := Overflows(c, msg.poll, QUEUE_CAP, msg);
    forall run ensures Exec(t, run).phase == t.phase && Exec(t, run).taken == t.taken { FullQueueBlocks(t, run); }
  }
}
