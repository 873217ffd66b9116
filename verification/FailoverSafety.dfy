/** What every interleaving of reads and writes on a failover connection keeps. */
module FailoverSafety {
  import opened Modbus
  import opened Rtu
  import opened Failover

  // ----- reading a history

  /** Whether the connection is active after this history. */
  predicate ActiveBy(trace: seq<Note>) {
    if trace == [] then false
    else match trace[|trace| - 1]
      case Activated(_) => true
      case Deactivated => false
      case _ => ActiveBy(trace[..|trace| - 1])
  }

  /** The misses since the last reset. */
  function MissesSince(trace: seq<Note>): nat {
    if trace == [] then 0
    else match trace[|trace| - 1]
      case Reset => 0
      case Miss => MissesSince(trace[..|trace| - 1]) + 1
      case _ => MissesSince(trace[..|trace| - 1])
  }

  /** The suppressed writes since the last reset. */
  function SuppressedSince(trace: seq<Note>): nat {
    if trace == [] then 0
    else match trace[|trace| - 1]
      case Reset => 0
      case Suppressed => SuppressedSince(trace[..|trace| - 1]) + 1
      case _ => SuppressedSince(trace[..|trace| - 1])
  }

  /** Whether misses made the connection active since the last reset. */
  predicate ActivatedSince(trace: seq<Note>) {
    if trace == [] then false
    else match trace[|trace| - 1]
      case Reset => false
      case Activated(forced) => !forced || ActivatedSince(trace[..|trace| - 1])
      case _ => ActivatedSince(trace[..|trace| - 1])
  }

  /** When a note may follow a history. */
  ghost predicate MayFollow(s: Settings, before: seq<Note>, note: Note) {
    && (match note
        case Sent(_) => ActiveBy(before)
        case Activated(forced) =>
          && !ActiveBy(before)
          && (forced ==> !s.isFailover)
          && (!forced && s.isClient ==> MissesSince(before) == s.missesMax)
          && (!forced && !s.isClient ==> MissesSince(before) > s.missesMax)
          && (!forced && !s.isClient && s.isFailover ==> MissesSince(before) == s.missesMax + 1)
        case Deactivated => ActiveBy(before)
        case Miss => !ActiveBy(before) && (s.isClient ==> MissesSince(before) < s.missesMax)
        case Suppressed => !ActiveBy(before) && (s.isClient ==> before != [] && before[|before| - 1] == Miss)
        case Reset => true)
    && (before != [] ==>
         && (s.isFailover && before[|before| - 1] == Deactivated ==> note == Reset)
         && (s.isClient && before[|before| - 1] == Miss ==> note == Suppressed))
  }

  ghost predicate Sane(s: Settings, trace: seq<Note>) {
    trace == [] || (Sane(s, trace[..|trace| - 1]) && MayFollow(s, trace[..|trace| - 1], trace[|trace| - 1]))
  }

  /** The fields agree with the history. */
  ghost predicate Agrees(s: Settings, c: Conn) {
    && c.isActive == ActiveBy(c.trace)
    && c.misses == MissesSince(c.trace)
    && Sane(s, c.trace)
  }

  /** What holds between the locked steps. */
  ghost predicate Inv(s: Settings, c: Conn) {
    && Agrees(s, c)
    && (c.trace != [] ==> !(s.isFailover && c.trace[|c.trace| - 1] == Deactivated) && !(s.isClient && c.trace[|c.trace| - 1] == Miss))
    && (s.isClient ==> c.misses <= s.missesMax)
    && (!s.isClient ==> (c.misses > s.missesMax <==> ActivatedSince(c.trace)))
    && (!s.isClient && s.isFailover && !c.isActive ==> c.misses <= s.missesMax)
    && (s.isClient ==> c.sleeping == multiset{})
  }

  lemma AddKeeps(s: Settings, c: Conn, note: Note, c': Conn)
    requires Sane(s, c.trace) && MayFollow(s, c.trace, note) && c'.trace == c.trace + [note]
    ensures Sane(s, c'.trace)
    ensures c'.trace[..|c.trace|] == c.trace && c'.trace[|c'.trace| - 1] == note
    ensures ActiveBy(c'.trace) == (if note.Activated? then true else if note == Deactivated then false else ActiveBy(c.trace))
    ensures MissesSince(c'.trace) ==
            (if note == Reset then 0 else if note == Miss then MissesSince(c.trace) + 1 else MissesSince(c.trace))
    ensures ActivatedSince(c'.trace) ==
            (if note == Reset then false else if note == Activated(false) then true else ActivatedSince(c.trace))
  {
    assert c'.trace[..|c.trace|] == c.trace;
  }

  lemma {:induction false} SaneAt(s: Settings, trace: seq<Note>, i: nat)
    requires Sane(s, trace) && i < |trace|
    ensures Sane(s, trace[..i]) && MayFollow(s, trace[..i], trace[i])
    decreases |trace|
  {
    if i < |trace| - 1 {
      SaneAt(s, trace[..|trace| - 1], i);
      assert trace[..|trace| - 1][..i] == trace[..i];
    }
  }

  lemma InitialInv(s: Settings, now: int)
    ensures Inv(s, NewConn(now))
  {}

  // ----- each step keeps the invariant

  lemma IncMissesKeeps(s: Settings, c: Conn, pdu: Pdu, now: int)
    requires Inv(s, c) && !s.isClient && !c.isActive
    ensures Inv(s, IncMisses(s, c, pdu, now))
  {
    var c1 := c.CountMiss();
    AddKeeps(s, c, Miss, c1);
    if c1.misses > s.missesMax {
      AddKeeps(s, c1, Activated(false), c1.Activate(false));
    }
  }

  lemma ResetKeeps(s: Settings, c: Conn)
    requires Agrees(s, c) && (s.isClient && c.trace != [] ==> c.trace[|c.trace| - 1] != Miss)
    requires s.isClient ==> c.sleeping == multiset{}
    ensures Inv(s, c.ClearMisses())
  {
    AddKeeps(s, c, Reset, c.ClearMisses());
  }

  lemma SharedBusKeeps(s: Settings, c: Conn, rtu: Packet, now: int)
    requires Inv(s, c) && !s.isClient
    ensures Inv(s, SharedBusPacket(s, c, rtu, now).0)
  {
    var p := GetPdu(rtu);
    if p.Err? {
      ResetKeeps(s, c);
    } else if rtu[0] == 0 {
    } else if c.isActive {
      if c.requestTime.Some? {
        AddKeeps(s, c, Deactivated, c.Deactivate());
        ResetKeeps(s, c.Deactivate());
      }
    } else if c.requestTime.None? {
    } else if now - c.requestTime.value > s.missDelay + s.bytesDelay(|rtu|) {
      IncMissesKeeps(s, c, p.value, now);
    } else if IsRequestReply(s.limits, c.reqPacket, p.value) {
      ResetKeeps(s, c.ResetRequestTime());
    } else {
      IncMissesKeeps(s, c.SetLastReqTime(p.value, now), p.value, now);
    }
  }

  /** The connection c after one more note, with nothing else that the invariant speaks of changed but isActive. */
  predicate Noted(c: Conn, note: Note, c': Conn) {
    && c'.trace == c.trace + [note] && c'.misses == c.misses && c'.sleeping == c.sleeping
    && c'.isActive == (if note.Activated? then true else if note == Deactivated then false else c.isActive)
  }

  lemma GivingUpKeeps(s: Settings, c: Conn, c': Conn)
    requires Inv(s, c) && !s.isFailover && c.isActive && Noted(c, Deactivated, c')
    ensures Inv(s, c')
  {
    AddKeeps(s, c, Deactivated, c');
  }

  lemma ForcedKeeps(s: Settings, c: Conn, c': Conn)
    requires Inv(s, c) && !s.isFailover && !c.isActive && Noted(c, Activated(true), c')
    ensures Inv(s, c')
  {
    AddKeeps(s, c, Activated(true), c');
  }

  lemma PrimaryTurnKeeps(s: Settings, c: Conn, now: int)
    requires Inv(s, c) && !s.isClient && !s.isFailover
    ensures Inv(s, PrimaryTurn(s, c, now))
  {
    var c1 := if !c.isActive && c.startTime + s.primaryForceBackDelay < now then c.Activate(true) else c;
    if c1 != c { ForcedKeeps(s, c, c1); }
    if c1.isActive && Before(c1.lastRead, s.primaryDisconnectDelay, now) {
      GivingUpKeeps(s, c1, c1.Deactivate().(startTime := now));
    }
  }

  lemma ServerWriteKeeps(s: Settings, c: Conn, frame: Packet)
    requires Inv(s, c) && !s.isClient
    ensures Inv(s, ServerWrite(s, c, frame))
  {
    if !c.isActive {
      AddKeeps(s, c, Suppressed, ServerWrite(s, c, frame));
    } else if !s.isFailover {
      AddKeeps(s, c, Sent(frame), ServerWrite(s, c, frame));
    }
  }

  lemma ServerWakesKeeps(s: Settings, c: Conn, frame: Packet)
    requires Inv(s, c) && !s.isClient
    ensures Inv(s, ServerWakes(c, frame))
  {
    AddKeeps(s, c, if c.isActive then Sent(frame) else Suppressed, ServerWakes(c, frame));
  }

  lemma ClientPacketKeeps(s: Settings, c: Conn, rtu: Packet, now: int)
    requires Inv(s, c) && s.isClient
    ensures Inv(s, ClientPacket(s, c, rtu, now).0)
  {
    var p := GetPdu(rtu);
    if p.Err? {
      ResetKeeps(s, c);
    } else if c.requestTime.Some? && now - c.requestTime.value < s.missDelay + s.bytesDelay(|rtu|)
              && IsRequestReply(s.limits, c.reqPacket, p.value) {
      ResetKeeps(s, c.ResetRequestTime());
    } else {
      var c1 := c.SetLastReqTime(p.value, now);
      if s.isFailover && c1.isActive {
        AddKeeps(s, c1, Deactivated, c1.Deactivate());
        ResetKeeps(s, c1.Deactivate());
      } else {
        ResetKeeps(s, c1);
      }
    }
  }

  lemma SentKeeps(s: Settings, c: Conn, frame: Packet, c': Conn)
    requires Inv(s, c) && s.isClient && c.isActive && Noted(c, Sent(frame), c')
    ensures Inv(s, c')
  {
    AddKeeps(s, c, Sent(frame), c');
  }

  lemma ClientTurnKeeps(s: Settings, c: Conn, now: int)
    requires Inv(s, c) && s.isClient
    ensures Inv(s, ClientTurn(s, c, now))
  {
    if !s.isFailover {
      var c1 := if c.isActive && Before(c.lastRead, s.primaryDisconnectDelay, now) then c.Deactivate() else c;
      if c1 != c { GivingUpKeeps(s, c, c1); }
      if !c1.isActive && c1.startTime + s.primaryForceBackDelay < now {
        ForcedKeeps(s, c1, c1.Activate(true).(startTime := now));
      }
    }
  }

  lemma ActivateKeeps(s: Settings, c: Conn)
    requires Inv(s, c) && s.isClient && !c.isActive && c.misses >= s.missesMax
    ensures Inv(s, c.Activate(false)) && c.Activate(false).isActive
  {
    AddKeeps(s, c, Activated(false), c.Activate(false));
  }

  lemma MissKeeps(s: Settings, c: Conn, c': Conn)
    requires Inv(s, c) && s.isClient && !c.isActive && c.misses < s.missesMax && c' == c.CountMiss().Add(Suppressed)
    ensures Inv(s, c')
  {
    AddKeeps(s, c, Miss, c.CountMiss());
    AddKeeps(s, c.CountMiss(), Suppressed, c');
  }

  /** The write of a client after its turn. */
  lemma WriteKeeps(s: Settings, c: Conn, frame: Packet, c': Conn)
    requires Inv(s, c) && s.isClient
    requires if c.isActive then Noted(c, Sent(frame), c')
             else if c.misses >= s.missesMax then Noted(c.Activate(false), Sent(frame), c')
             else c' == c.CountMiss().Add(Suppressed)
    ensures Inv(s, c')
  {
    if c.isActive {
      SentKeeps(s, c, frame, c');
    } else if c.misses >= s.missesMax {
      ActivateKeeps(s, c);
      SentKeeps(s, c.Activate(false), frame, c');
    } else {
      MissKeeps(s, c, c');
    }
  }

  lemma ClientWriteKeeps(s: Settings, c: Conn, frame: Packet, now: int)
    requires Inv(s, c) && s.isClient && |frame| >= 3
    ensures Inv(s, ClientWrite(s, c, frame, now))
  {
    ClientTurnKeeps(s, c, now);
    WriteKeeps(s, ClientTurn(s, c, now), frame, ClientWrite(s, c, frame, now));
  }

  lemma StepKeeps(s: Settings, c: Conn, e: Event)
    requires Inv(s, c) && Enabled(s, c, e)
    ensures Inv(s, Step(s, c, e))
  {
    match e
    case PacketRead(rtu, at) =>
      if s.isClient {
        ClientPacketKeeps(s, c, rtu, at);
      } else if s.isFailover {
        SharedBusKeeps(s, c, rtu, at);
      } else {
        PrimaryTurnKeeps(s, c, at);
        if !PrimaryTurn(s, c, at).isActive { SharedBusKeeps(s, PrimaryTurn(s, c, at), rtu, at); }
      }
    case ReadDone(at) =>
    case WriteCalled(frame, at) =>
      if s.isClient { ClientWriteKeeps(s, c, frame, at); } else { ServerWriteKeeps(s, c, frame); }
    case DelayOver(frame) =>
      if !s.isClient { ServerWakesKeeps(s, c, frame); }
  }

  /** Over every interleaving of reads and two-phase writes. */
  lemma {:induction false} RunKeeps(s: Settings, c: Conn, events: seq<Event>)
    requires Inv(s, c) && AllEnabled(s, c, events)
    ensures Inv(s, Run(s, c, events))
    decreases |events|
  {
    if events != [] {
      StepKeeps(s, c, events[0]);
      RunKeeps(s, Step(s, c, events[0]), events[1..]);
    }
  }

  // ----- what follows for whole histories

  function History(s: Settings, now: int, events: seq<Event>): seq<Note>
    requires AllEnabled(s, NewConn(now), events)
  {
    Run(s, NewConn(now), events).trace
  }

  /**
   A failover server: frames go to the wire only while active, every activation comes after exactly MissesMax + 1 misses
   since the last reset, and a passive connection has counted at most MissesMax.
   */
  lemma FailoverServerIsSafe(s: Settings, now: int, events: seq<Event>)
    requires !s.isClient && s.isFailover && AllEnabled(s, NewConn(now), events)
    ensures var c := Run(s, NewConn(now), events);
            && (!c.isActive ==> c.misses <= s.missesMax)
            && c.isActive == ActiveBy(c.trace) && c.misses == MissesSince(c.trace)
            && forall i :: 0 <= i < |c.trace| ==>
                 && (c.trace[i].Sent? ==> ActiveBy(c.trace[..i]))
                 && (c.trace[i].Activated? ==> MissesSince(c.trace[..i]) == s.missesMax + 1)
  {
    InitialInv(s, now);
    RunKeeps(s, NewConn(now), events);
    var c := Run(s, NewConn(now), events);
    forall i | 0 <= i < |c.trace|
      ensures c.trace[i].Sent? ==> ActiveBy(c.trace[..i])
      ensures c.trace[i].Activated? ==> MissesSince(c.trace[..i]) == s.missesMax + 1
    {
      SaneAt(s, c.trace, i);
    }
  }

  /** Between going passive and being active again there is an activation. */
  lemma {:induction false} ActivationBetween(trace: seq<Note>, i: nat, j: nat) returns (k: nat)
    requires i < j <= |trace| && trace[i] == Deactivated && ActiveBy(trace[..j])
    ensures i < k < j && trace[k].Activated?
    decreases j
  {
    assert trace[..j][..j - 1] == trace[..j - 1];
    if trace[j - 1].Activated? {
      k := j - 1;
    } else {
      assert j - 1 != i;
      k := ActivationBetween(trace, i, j - 1);
    }
  }

  /** Misses before a reset do not count. */
  lemma {:induction false} MissesAfterReset(a: seq<Note>, b: seq<Note>)
    requires Reset in b
    ensures MissesSince(a + b) == MissesSince(b)
    decreases |b|
  {
    var n := |b| - 1;
    assert (a + b)[..|a + b| - 1] == a + b[..n];
    if b[n] != Reset {
      assert Reset in b[..n];
      MissesAfterReset(a, b[..n]);
    }
  }

  /**
   A reply under way when the connection is deactivated does not reach the wire, unless the connection was activated
   again in the meantime, by MissesMax + 1 misses that all came after the deactivation.
   */
  lemma StaleReplyNeedsFreshMisses(s: Settings, now: int, events: seq<Event>, i: nat, j: nat) returns (k: nat)
    requires !s.isClient && s.isFailover && AllEnabled(s, NewConn(now), events)
    requires i < j < |History(s, now, events)|
    requires History(s, now, events)[i] == Deactivated && History(s, now, events)[j].Sent?
    ensures i < k < j && History(s, now, events)[k] == Activated(false)
    ensures MissesSince(History(s, now, events)[i + 1..k]) == s.missesMax + 1
  {
    InitialInv(s, now);
    RunKeeps(s, NewConn(now), events);
    k := FreshMisses(s, History(s, now, events), i, j);
  }

  lemma FreshMisses(s: Settings, t: seq<Note>, i: nat, j: nat) returns (k: nat)
    requires !s.isClient && s.isFailover && Sane(s, t) && i < j < |t| && t[i] == Deactivated && t[j].Sent?
    ensures i < k < j && t[k] == Activated(false) && MissesSince(t[i + 1..k]) == s.missesMax + 1
  {
    SaneAt(s, t, j);
    k := ActivationBetween(t, i, j);
    SaneAt(s, t, k);
    ResetFollows(s, t, i);
    assert t[..k] == t[..i + 1] + t[i + 1..k];
    assert k > i + 1 && t[i + 1..k][0] == Reset;
    MissesAfterReset(t[..i + 1], t[i + 1..k]);
  }

  /** A failover server that goes passive resets its misses. */
  lemma ResetFollows(s: Settings, t: seq<Note>, i: nat)
    requires s.isFailover && Sane(s, t) && i + 1 < |t| && t[i] == Deactivated
    ensures t[i + 1] == Reset
  {
    SaneAt(s, t, i + 1);
    assert t[..i + 1][|t[..i + 1]| - 1] == Deactivated;
  }

  /**
   A primary server: an activation is forced by PrimaryForceBackDelay or follows more than MissesMax misses. Going passive
   does not reset its misses, so it may be passive with more than MissesMax of them: exactly when misses activated it since
   the last reset.
   */
  lemma PrimaryServerIsSafe(s: Settings, now: int, events: seq<Event>)
    requires !s.isClient && !s.isFailover && AllEnabled(s, NewConn(now), events)
    ensures var c := Run(s, NewConn(now), events);
            && (c.misses > s.missesMax <==> ActivatedSince(c.trace))
            && c.isActive == ActiveBy(c.trace) && c.misses == MissesSince(c.trace)
            && forall i :: 0 <= i < |c.trace| ==>
                 && (c.trace[i].Sent? ==> ActiveBy(c.trace[..i]))
                 && (c.trace[i] == Activated(false) ==> MissesSince(c.trace[..i]) > s.missesMax)
  {
    InitialInv(s, now);
    RunKeeps(s, NewConn(now), events);
    var c := Run(s, NewConn(now), events);
    forall i | 0 <= i < |c.trace|
      ensures c.trace[i].Sent? ==> ActiveBy(c.trace[..i])
      ensures c.trace[i] == Activated(false) ==> MissesSince(c.trace[..i]) > s.missesMax
    {
      SaneAt(s, c.trace, i);
    }
  }

  /**
   The bound on the misses of a passive connection does not hold of a primary: three late packets activate it, and a
   broadcast arriving after PrimaryDisconnectDelay makes it passive with its misses kept.
   */
  lemma PrimaryKeepsItsMisses() returns (s: Settings, events: seq<Event>)
    ensures !s.isClient && !s.isFailover && s.missesMax == 2 && AllEnabled(s, NewConn(0), events)
    ensures var c := Run(s, NewConn(0), events);
            !c.isActive && c.misses > s.missesMax
  {
    s := Settings(false, false, Limits(false, 256), 10_000, 600_000, 200, n => 1, 2);
    var request, broadcast := MakeRtu(1, [3, 0, 0, 0, 1]), MakeRtu(0, [6, 0, 0, 0, 1]);
    GetPduOfMakeRtu(1, [3, 0, 0, 0, 1]);
    GetPduOfMakeRtu(0, [6, 0, 0, 0, 1]);
    var last := [PacketRead(broadcast, 5000)];
    var c4 := ThreeLatePackets(s, request);
    events := Late(request) + last;
    BroadcastPacket(s, c4, broadcast, 5000);
    RunOne(s, c4, last);
    RunAppend(s, NewConn(0), Late(request), last);
  }

  function Late(request: Packet): seq<Event> {
    [PacketRead(request, 1000), PacketRead(request, 2000), PacketRead(request, 3000), PacketRead(request, 4000)]
  }

  lemma ThreeLatePackets(s: Settings, request: Packet) returns (c: Conn)
    requires !s.isClient && !s.isFailover && s.missesMax == 2 && s.missDelay == 200 && s.bytesDelay(|request|) == 1
    requires s.primaryForceBackDelay == 600_000 && s.primaryDisconnectDelay == 10_000
    requires GetPdu(request).Ok? && request[0] != 0
    ensures AllEnabled(s, NewConn(0), Late(request)) && c == Run(s, NewConn(0), Late(request))
    ensures c.isActive && c.misses == 3 && c.lastRead.None?
  {
    var events := Late(request);
    var c0 := NewConn(0);
    LatePacket(s, c0, request, 1000);
    var c1 := Step(s, c0, events[0]);
    LatePacket(s, c1, request, 2000);
    var c2 := Step(s, c1, events[1]);
    LatePacket(s, c2, request, 3000);
    var c3 := Step(s, c2, events[2]);
    LatePacket(s, c3, request, 4000);
    c := Step(s, c3, events[3]);
    RunOne(s, c3, events[3..]);
    RunOne(s, c2, events[2..]);
    RunOne(s, c1, events[1..]);
    RunOne(s, c0, events);
    assert events[1..][1..] == events[2..] && events[2..][1..] == events[3..] && events[3..][1..] == [];
  }

  /** A packet a passive primary reads while no request is pending, or too late to be a reply. */
  lemma LatePacket(s: Settings, c: Conn, rtu: Packet, now: int)
    requires !s.isClient && !s.isFailover && GetPdu(rtu).Ok? && rtu[0] != 0
    requires !c.isActive && now <= c.startTime + s.primaryForceBackDelay
    requires c.requestTime.Some? ==> now - c.requestTime.value > s.missDelay + s.bytesDelay(|rtu|)
    ensures Step(s, c, PacketRead(rtu, now)) ==
              if c.requestTime.None? then c.SetLastReqTime(GetPdu(rtu).value, now)
              else IncMisses(s, c, GetPdu(rtu).value, now)
  {}

  /** A broadcast an active primary reads after PrimaryDisconnectDelay. */
  lemma BroadcastPacket(s: Settings, c: Conn, rtu: Packet, now: int)
    requires !s.isClient && !s.isFailover && GetPdu(rtu).Ok? && rtu[0] == 0 && c.isActive && c.lastRead.None?
    ensures var c' := Step(s, c, PacketRead(rtu, now));
            !c'.isActive && c'.misses == c.misses
  {}

  /** A client suppresses a write exactly when it counts a miss. */
  lemma {:induction false} MissesAreSuppressed(s: Settings, trace: seq<Note>)
    requires s.isClient && Sane(s, trace)
    ensures MissesSince(trace) == SuppressedSince(trace) + if trace != [] && trace[|trace| - 1] == Miss then 1 else 0
    decreases |trace|
  {
    if trace != [] {
      MissesAreSuppressed(s, trace[..|trace| - 1]);
    }
  }

  /**
   A client: the misses are the writes suppressed since the last packet read and never more than MissesMax; frames go to
   the wire only while active; and misses activate it only after exactly MissesMax suppressed writes with no packet read
   since the first of them. A failover client is never activated otherwise.
   */
  lemma ClientIsSafe(s: Settings, now: int, events: seq<Event>)
    requires s.isClient && AllEnabled(s, NewConn(now), events)
    ensures var c := Run(s, NewConn(now), events);
            && c.misses == SuppressedSince(c.trace) <= s.missesMax
            && c.isActive == ActiveBy(c.trace)
            && forall i :: 0 <= i < |c.trace| ==>
                 && (c.trace[i].Sent? ==> ActiveBy(c.trace[..i]))
                 && (c.trace[i] == Activated(false) ==> SuppressedSince(c.trace[..i]) == s.missesMax)
                 && (c.trace[i] == Activated(true) ==> !s.isFailover)
  {
    InitialInv(s, now);
    RunKeeps(s, NewConn(now), events);
    var c := Run(s, NewConn(now), events);
    MissesAreSuppressed(s, c.trace);
    forall i | 0 <= i < |c.trace|
      ensures c.trace[i].Sent? ==> ActiveBy(c.trace[..i])
      ensures c.trace[i] == Activated(false) ==> SuppressedSince(c.trace[..i]) == s.missesMax
      ensures c.trace[i] == Activated(true) ==> !s.isFailover
    {
      SaneAt(s, c.trace, i);
      MissesAreSuppressed(s, c.trace[..i]);
    }
  }
}
