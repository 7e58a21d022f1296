/** The promises of the hub and its pumps. */
module HubTheorems {
  import opened Models
  import opened HubMachine
  import opened HubInvariants

  /** In every interleaving, unregister before register and duplicate unregisters included, the hub never
      sends on a closed channel and never closes one twice; a channel is closed exactly when its client
      has left. */
  lemma ChannelLifeCycle<M(!new)>(s: State<M>, c: ClientId)
    requires Reachable(s) && c < |s.conns|
    ensures !s.panicked
    ensures s.conns[c].closed <==> s.conns[c].place.Gone?
    ensures forall p :: c in Room(s, p) ==> !s.conns[c].closed
  {
    ReachableOk(s);
    assert ConnPlaced(s, c);
    assert forall p :: c in Room(s, p) ==> Member(s, c, p);
  }

  /** How many broadcasts from the front were all enqueued. */
  function BeforeMiss(offered: seq<bool>): (n: nat)
    ensures n <= |offered|
    ensures forall i :: 0 <= i < n ==> offered[i]
    ensures n < |offered| ==> !offered[n]
  {
    if offered == [] || !offered[0] then 0 else 1 + BeforeMiss(offered[1..])
  }

  lemma {:induction false} SelectRun<M>(s: seq<M>, flags: seq<bool>, n: nat)
    requires |flags| <= |s| && n <= |flags| && forall i :: 0 <= i < n ==> flags[i]
    ensures s[..n] <= Select(s, flags)
    ensures n == |flags| ==> Select(s, flags) == s[..n]
    decreases |flags|
  {
    if flags != [] {
      var m := |flags| - 1;
      if n == |flags| {
        SelectRun(s, flags[..m], m);
        assert s[..n] == s[..m] + [s[m]];
      } else {
        SelectRun(s, flags[..m], n);
      }
    }
  }

  /** A client's messages are an in-order subsequence of its room's broadcasts since its registration, and
      exactly the contiguous run up to its first full buffer; between broadcasts none is outstanding. */
  lemma InOrderDelivery<M(!new)>(s: State<M>, c: ClientId)
    requires Reachable(s) && c < |s.conns|
    ensures var k := s.conns[c]; var log := RoomLog(s.taken, k.poll); var n := BeforeMiss(k.offered);
      && k.regAt + |k.offered| <= |log|
      && k.enqueued == Select(log[k.regAt..], k.offered)
      && log[k.regAt..k.regAt + n] <= k.enqueued
      && (n == |k.offered| ==> k.enqueued == log[k.regAt..k.regAt + n])
      && (k.place.InRoom? && s.phase.Selecting? ==> k.regAt + |k.offered| == |log|)
  {
    ReachableOk(s);
    assert ConnOk(s, c);
    var k := s.conns[c];
    var log, n := RoomLog(s.taken, k.poll), BeforeMiss(k.offered);
    SelectRun(log[k.regAt..], k.offered, n);
    assert log[k.regAt..][..n] == log[k.regAt..k.regAt + n];
  }

  /** A client that ever missed a broadcast has left, or its removal is queued or being queued. */
  lemma MissedIsLeaving<M(!new)>(s: State<M>, c: ClientId)
    requires Reachable(s) && c < |s.conns| && BeforeMiss(s.conns[c].offered) < |s.conns[c].offered|
    ensures s.conns[c].place.Gone? || c in s.unregister || (s.phase.Evicting? && s.phase.client == c)
  {
    ReachableOk(s);
    assert ConnOk(s, c);
    assert s.conns[c].offered[BeforeMiss(s.conns[c].offered)] in s.conns[c].offered;
  }

  // ---- rooms --------------------------------------------------------------------------------

  ghost function Watching<M>(s: State<M>, p: PollId): set<ClientId> {
    set c: nat | c < |s.conns| && s.conns[c].place.InRoom? && s.conns[c].poll == p
  }

  /** The nested map is the live clients grouped by their own poll, with no empty room. */
  lemma {:induction false} RoomsAreClients<M(!new)>(s: State<M>, p: PollId)
    requires Reachable(s)
    ensures Room(s, p) == Watching(s, p)
    ensures p in s.rooms <==> Watching(s, p) != {}
  {
    ReachableOk(s);
    forall c: nat ensures c in Room(s, p) <==> c in Watching(s, p) {
      if c in Room(s, p) { assert Member(s, c, p); }
      if c in Watching(s, p) { assert ConnPlaced(s, c); }
    }
  }

  /** An unregistration removes its client if and only if the hub had admitted it and not yet removed it. */
  lemma UnregisterRemovesIff<M(!new)>(s: State<M>)
    requires Reachable(s) && s.phase.Selecting? && s.unregister != []
    ensures var c := s.unregister[0];
      && c < |s.conns|
      && (Dismiss(s).conns[c].place.Gone? <==> !s.conns[c].place.Queued?)
      && (s.conns[c].place.Queued? ==> Dismiss(s) == s.(unregister := s.unregister[1..]))
      && (s.conns[c].place.Gone? ==> Dismiss(s) == s.(unregister := s.unregister[1..]))
  {
    ReachableOk(s);
    assert s.unregister[0] in s.unregister;
    assert ConnPlaced(s, s.unregister[0]);
  }

  /** So an unregistration taken before its registration leaves a client nobody reads in the room. */
  lemma UnregisterFirst(p: PollId)
    ensures var s := Exec(Init<string>(), [Connect(p), ReaderExit(0), TakeUnregister, TakeRegister]);
      |s.conns| == 1 && s.conns[0].place.InRoom? && !s.conns[0].reading && s.unregister == [] && 0 in Room(s, p)
  {
    var s0 := Init<string>();
    var run: seq<Step<string>> := [Connect(p), ReaderExit(0), TakeUnregister, TakeRegister];
    assert run[..3] == [Connect(p), ReaderExit(0), TakeUnregister] && run[..3][..2] == [Connect(p), ReaderExit(0)];
    assert run[..3][..2][..1] == [Connect(p)] && run[..3][..2][..1][..0] == [];
    var s1 := Join(s0, p);
    assert Exec(s0, run[..3][..2][..1]) == s1;
    var s2 := StopReading(s1, 0);
    assert Exec(s0, run[..3][..2]) == s2;
    var s3 := Dismiss(s2);
    assert Exec(s0, run[..3]) == s3;
    assert Exec(s0, run) == Admit(s3);
  }

  // ---- write pump ---------------------------------------------------------------------------

  /** The data frames, then the batch in hand or lost to a write error, then the buffer, are what the hub
      enqueued; the flush loop always finds the items it counted. */
  lemma WritePumpRefines<M(!new)>(s: State<M>, c: ClientId)
    requires Reachable(s) && c < |s.conns|
    ensures var k := s.conns[c];
      && Flatten(k.wire) + InHand(k) + k.buf == k.enqueued
      && (k.pump.Flushing? && k.pump.left > 0 ==> k.buf != [])
      && (!k.pump.Stopped? ==> k.lost == [])
  {
    ReachableOk(s);
    assert ConnOk(s, c);
  }

  /** The close frame comes after every buffered message was written, once, and last. */
  lemma CloseFrameLast<M(!new)>(s: State<M>, c: ClientId)
    requires Reachable(s) && c < |s.conns| && Close in s.conns[c].wire
    ensures var k := s.conns[c];
      && k.closed && Flatten(k.wire) == k.enqueued
      && k.wire[|k.wire| - 1] == Close && Close !in k.wire[..|k.wire| - 1]
  {
    ReachableOk(s);
    assert ConnOk(s, c);
    var k := s.conns[c];
    assert Flatten(k.wire) + [] + [] == k.enqueued;
  }

  /** A stopped write pump writes nothing more. */
  lemma {:induction false} StoppedIsSilent<M>(s: State<M>, run: seq<Step<M>>, c: ClientId)
    requires c < |s.conns| && s.conns[c].pump.Stopped?
    ensures var t := Exec(s, run); c < |t.conns| && t.conns[c].pump.Stopped? && t.conns[c].wire == s.conns[c].wire
    decreases |run|
  {
    if run != [] {
      StoppedIsSilent(s, run[..|run| - 1], c);
      StoppedStep(Exec(s, run[..|run| - 1]), run[|run| - 1], c);
    }
  }

  lemma StoppedStep<M>(s: State<M>, a: Step<M>, c: ClientId)
    requires c < |s.conns| && s.conns[c].pump.Stopped?
    ensures var t := Apply(s, a); c < |t.conns| && t.conns[c].pump.Stopped? && t.conns[c].wire == s.conns[c].wire
  {
    match a {
      case Connect(_) =>
      case TakeRegister =>
      case TakeUnregister =>
      case TakeBroadcast(_) =>
      case SendNext =>
      case PushEviction =>
      case Enqueue(_) =>
      case ReaderExit(_) =>
      case Receive(_, _) =>
      case Sample(_) =>
      case Flush(_) =>
      case Finish(_, _) =>
      case SendPing(_, _) =>
    }
  }

  // ---- slow clients -------------------------------------------------------------------------

  predicate Drains<M>(a: Step<M>, c: ClientId) { (a.Receive? && a.c == c) || (a.Flush? && a.c == c) }

  /** What an undrained client went through from `s` to `t`. */
  ghost predicate Undrained<M>(s: State<M>, t: State<M>, c: ClientId) {
    && c < |s.conns| && c < |t.conns|
    && s.conns[c].offered <= t.conns[c].offered
    && s.conns[c].enqueued <= t.conns[c].enqueued
    && t.conns[c].buf == s.conns[c].buf + t.conns[c].enqueued[|s.conns[c].enqueued|..]
    && t.conns[c].poll == s.conns[c].poll
  }

  lemma UndrainedSend<M>(s: State<M>, c: ClientId)
    requires c < |s.conns|
    ensures Undrained(s, Send(s), c)
  {
  }

  lemma UndrainedPump<M>(s: State<M>, a: Step<M>, c: ClientId)
    requires c < |s.conns| && !Drains(a, c) && IsPumpStep(a)
    ensures Undrained(s, Apply(s, a), c)
  {
    PumpStepIs(s, a);
  }

  lemma UndrainedStep<M>(s: State<M>, a: Step<M>, c: ClientId)
    requires c < |s.conns| && !Drains(a, c)
    ensures Undrained(s, Apply(s, a), c)
  {
    if IsPumpStep(a) {
      UndrainedPump(s, a, c);
    } else if a.SendNext? {
      UndrainedSend(s, c);
    } else {
      OnlySendDelivers(s, a, c);
    }
  }

  lemma OnlySendDelivers<M>(s: State<M>, a: Step<M>, c: ClientId)
    requires c < |s.conns| && !IsPumpStep(a) && !a.SendNext?
    ensures c < |Apply(s, a).conns|
    ensures var k, l := s.conns[c], Apply(s, a).conns[c];
      l.poll == k.poll && l.buf == k.buf && l.offered == k.offered && l.enqueued == k.enqueued
  {
    match a {
      case Connect(_) =>
      case TakeRegister =>
      case TakeUnregister =>
      case TakeBroadcast(_) =>
      case PushEviction =>
      case Enqueue(_) =>
      case ReaderExit(_) =>
    }
  }

  lemma {:induction false} UndrainedRun<M>(s: State<M>, run: seq<Step<M>>, c: ClientId)
    requires c < |s.conns| && forall a :: a in run ==> !Drains(a, c)
    ensures Undrained(s, Exec(s, run), c)
    decreases |run|
  {
    if run != [] {
      assert forall a :: a in run[..|run| - 1] ==> a in run;
      assert run[|run| - 1] in run;
      UndrainedRun(s, run[..|run| - 1], c);
      var m, t := Exec(s, run[..|run| - 1]), Exec(s, run);
      UndrainedStep(m, run[|run| - 1], c);
      assert t.conns[c].enqueued[|s.conns[c].enqueued|..] ==
             m.conns[c].enqueued[|s.conns[c].enqueued|..] + t.conns[c].enqueued[|m.conns[c].enqueued|..];
    }
  }

  /** An admitted client is not admitted again. */
  lemma {:induction false} AdmittedOnce<M>(s: State<M>, run: seq<Step<M>>, c: ClientId)
    requires Invariant(s) && c < |s.conns| && !s.conns[c].place.Queued?
    ensures var t := Exec(s, run); c < |t.conns| && !t.conns[c].place.Queued? && t.conns[c].regAt == s.conns[c].regAt
    decreases |run|
  {
    if run != [] {
      var m, a := Exec(s, run[..|run| - 1]), run[|run| - 1];
      AdmittedOnce(s, run[..|run| - 1], c);
      RunKeeps(s, run[..|run| - 1]);
      assert ConnPlaced(m, c);
      AdmittedStep(m, a, c);
    }
  }

  lemma AdmittedStep<M>(s: State<M>, a: Step<M>, c: ClientId)
    requires c < |s.conns| && !s.conns[c].place.Queued? && c !in s.register
    ensures var t := Apply(s, a); c < |t.conns| && !t.conns[c].place.Queued? && t.conns[c].regAt == s.conns[c].regAt
  {
    if IsPumpStep(a) {
      PumpStepIs(s, a);
    } else if a.SendNext? {
      SendKeepsPlace(s, c);
    } else {
      match a {
        case Connect(_) =>
        case TakeRegister =>
        case TakeUnregister =>
        case TakeBroadcast(_) =>
        case PushEviction =>
        case Enqueue(_) =>
        case ReaderExit(_) =>
      }
    }
  }

  lemma SendKeepsPlace<M>(s: State<M>, c: ClientId)
    requires c < |s.conns|
    ensures c < |Send(s).conns|
    ensures var k, l := s.conns[c], Send(s).conns[c]; l.place == k.place && l.regAt == k.regAt
  {
  }

  lemma {:induction false} SelectSize<M>(s: seq<M>, flags: seq<bool>)
    requires |flags| <= |s|
    ensures |Select(s, flags)| <= |flags|
    ensures |Select(s, flags)| == |flags| <==> false !in flags
    decreases |flags|
  {
    if flags != [] {
      var n := |flags| - 1;
      assert flags == flags[..n] + [flags[n]];
      SelectSize(s, flags[..n]);
    }
  }

  /** A client nobody drains gets at most what its buffer still holds, 256 at the most; once 257 more
      broadcasts of its room have reached it, it has left or its removal is queued or being queued. */
  lemma SlowClient<M(!new)>(s: State<M>, run: seq<Step<M>>, c: ClientId)
    requires Reachable(s) && c < |s.conns| && forall a :: a in run ==> !Drains(a, c)
    ensures c < |Exec(s, run).conns|
    ensures |Exec(s, run).conns[c].enqueued| - |s.conns[c].enqueued| <= 256 - |s.conns[c].buf|
    ensures var t := Exec(s, run);
      |t.conns[c].offered| - |s.conns[c].offered| > 256 ==>
        t.conns[c].place.Gone? || c in t.unregister || (t.phase.Evicting? && t.phase.client == c)
    ensures var t := Exec(s, run); var p := s.conns[c].poll;
      (s.conns[c].place.InRoom? && t.conns[c].place.InRoom? && t.phase.Selecting?
       && |RoomLog(t.taken, p)| - |RoomLog(s.taken, p)| > 256) ==> c in t.unregister
  {
    var t := Exec(s, run);
    ReachableOk(s);
    RunKeeps(s, run);
    UndrainedRun(s, run, c);
    if !s.conns[c].place.Queued? { AdmittedOnce(s, run, c); }
    assert ConnOk(s, c) && ConnOk(t, c);
    SelectSize(RoomLog(s.taken, s.conns[c].poll)[s.conns[c].regAt..], s.conns[c].offered);
    SelectSize(RoomLog(t.taken, t.conns[c].poll)[t.conns[c].regAt..], t.conns[c].offered);
  }
}
