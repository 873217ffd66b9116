/**
 The failover connection (failover.go): the steps taken under its lock, as functions on its fields. Any number of readers
 and writers may interleave these steps; a failover server's Write takes two of them with a delay in between.
 */
module Failover {
  import opened Modbus
  import opened Rtu

  /** What is fixed when the connection is made; MissesMax is 2 for a primary and 4 for a failover by default. */
  datatype Settings = Settings(
    isClient: bool, isFailover: bool, limits: Limits,
    primaryDisconnectDelay: int, primaryForceBackDelay: int, missDelay: int,
    bytesDelay: nat -> int, missesMax: nat)

  /** The history of a connection: what its steps did to its state and to the wire. */
  datatype Note =
    | Miss                     // one more miss counted
    | Reset                    // misses set to zero
    | Activated(forced: bool)  // became active, by PrimaryForceBackDelay or by misses
    | Deactivated
    | Sent(frame: Packet)      // a write went to the wire
    | Suppressed               // a write did not

  /** The fields; None is the zero time. `sleeping` and `trace` record writes under delay and the history. */
  datatype Conn = Conn(
    isActive: bool, requestTime: Option<int>, reqPacket: Pdu, lastRead: Option<int>, startTime: int, misses: nat,
    sleeping: multiset<Packet>, trace: seq<Note>)
  {
    function Add(note: Note): Conn { this.(trace := trace + [note]) }

    function ResetRequestTime(): Conn { this.(requestTime := None, reqPacket := []) }

    function SetLastReqTime(pdu: Pdu, now: int): Conn { this.(requestTime := Some(now), reqPacket := pdu) }

    function ClearMisses(): Conn { this.(misses := 0).Add(Reset) }

    function CountMiss(): Conn { this.(misses := misses + 1).Add(Miss) }

    function Activate(forced: bool): Conn { this.(isActive := true).Add(Activated(forced)) }

    function Deactivate(): Conn { this.(isActive := false).Add(Deactivated) }
  }

  function NewConn(now: int): Conn { Conn(false, None, [], None, now, 0, multiset{}, []) }

  predicate Before(at: Option<int>, delay: int, now: int) { at.None? || at.value + delay < now }

  /** What the caller of Read sees of one packet. */
  datatype Verdict = Forwarded | Discarded | Failed(error: Failure)

  // ----- server

  function IncMisses(s: Settings, c: Conn, pdu: Pdu, now: int): Conn {
    var c' := c.CountMiss();
    if c'.misses > s.missesMax then c'.Activate(false) else c'.SetLastReqTime(pdu, now)
  }

  /** A primary server takes over again after PrimaryForceBackDelay, and gives up after PrimaryDisconnectDelay. */
  function PrimaryTurn(s: Settings, c: Conn, now: int): Conn {
    var c1 := if !c.isActive && c.startTime + s.primaryForceBackDelay < now then c.Activate(true) else c;
    if c1.isActive && Before(c1.lastRead, s.primaryDisconnectDelay, now) then c1.Deactivate().(startTime := now) else c1
  }

  /** A packet read while passive, or while active as the failover. */
  function SharedBusPacket(s: Settings, c: Conn, rtu: Packet, now: int): (Conn, Verdict) {
    var p := GetPdu(rtu);
    if p.Err? then (c.ClearMisses(), Discarded)
    else if rtu[0] == 0 then (c.ResetRequestTime(), Forwarded)
    else if c.isActive then
      if c.requestTime.None? then (c.SetLastReqTime(p.value, now), Forwarded)
      else (c.Deactivate().ClearMisses().ResetRequestTime(), Discarded)
    else if c.requestTime.None? then (c.SetLastReqTime(p.value, now), Forwarded)
    else if now - c.requestTime.value > s.missDelay + s.bytesDelay(|rtu|) then (IncMisses(s, c, p.value, now), Forwarded)
    else if IsRequestReply(s.limits, c.reqPacket, p.value) then (c.ResetRequestTime().ClearMisses(), Discarded)
    else (IncMisses(s, c.SetLastReqTime(p.value, now), p.value, now), Forwarded)
  }

  /** One turn of the loop of serverRead, after the packet reader returned. */
  function ServerPacket(s: Settings, c: Conn, rtu: Packet, now: int): (Conn, Verdict) {
    if s.isFailover then SharedBusPacket(s, c, rtu, now)
    else
      var c1 := PrimaryTurn(s, c, now);
      if c1.isActive then (c1, Forwarded) else SharedBusPacket(s, c1, rtu, now)
  }

  /** The first locked phase of a server's Write: a failover that is active goes to sleep before it writes. */
  function ServerWrite(s: Settings, c: Conn, frame: Packet): Conn {
    if !c.isActive then c.Add(Suppressed)
    else if s.isFailover then c.(sleeping := c.sleeping + multiset{frame})
    else c.ResetRequestTime().Add(Sent(frame))
  }

  /** The second locked phase, after SecondaryDelay. */
  function ServerWakes(c: Conn, frame: Packet): Conn {
    var c' := c.(sleeping := c.sleeping - multiset{frame});
    if c.isActive then c'.ResetRequestTime().Add(Sent(frame)) else c'.Add(Suppressed)
  }

  // ----- client

  /** clientRead, after the packet reader returned; it clears the misses whatever it read. */
  function ClientPacket(s: Settings, c: Conn, rtu: Packet, now: int): (Conn, Verdict) {
    var p := GetPdu(rtu);
    if p.Err? then (c.ClearMisses(), Failed(p.error))
    else if c.requestTime.Some? && now - c.requestTime.value < s.missDelay + s.bytesDelay(|rtu|)
            && IsRequestReply(s.limits, c.reqPacket, p.value)
      then (c.ResetRequestTime().ClearMisses(), Forwarded)
    else
      var c1 := c.SetLastReqTime(p.value, now);
      ((if s.isFailover && c1.isActive then c1.Deactivate() else c1).ClearMisses(), Forwarded)
  }

  /** What PrimaryDisconnectDelay and PrimaryForceBackDelay do to a client about to write. */
  function ClientTurn(s: Settings, c: Conn, now: int): Conn {
    if s.isFailover then c
    else
      var c1 := if c.isActive && Before(c.lastRead, s.primaryDisconnectDelay, now) then c.Deactivate() else c;
      if !c1.isActive && c1.startTime + s.primaryForceBackDelay < now then c1.Activate(true).(startTime := now) else c1
  }

  function ClientWrite(s: Settings, c: Conn, frame: Packet, now: int): Conn
    requires |frame| >= 3
  {
    var c1 := ClientTurn(s, c, now);
    var c2 := if c1.isActive then c1
              else if c1.misses >= s.missesMax then c1.Activate(false)
              else c1.CountMiss();
    if c2.isActive then c2.SetLastReqTime(FastPdu(frame), now).Add(Sent(frame)) else c2.Add(Suppressed)
  }

  // ----- runs

  /** The locked steps, in whatever order the readers, the writers and the clock bring them. */
  datatype Event =
    | PacketRead(rtu: Packet, at: int)
    | ReadDone(at: int)
    | WriteCalled(frame: Packet, at: int)
    | DelayOver(frame: Packet)

  predicate Enabled(s: Settings, c: Conn, e: Event) {
    match e
    case DelayOver(frame) => frame in c.sleeping
    case WriteCalled(frame, _) => |frame| >= 3
    case _ => true
  }

  function Step(s: Settings, c: Conn, e: Event): Conn
    requires Enabled(s, c, e)
  {
    match e
    case PacketRead(rtu, at) => if s.isClient then ClientPacket(s, c, rtu, at).0 else ServerPacket(s, c, rtu, at).0
    case ReadDone(at) => c.(lastRead := Some(at))
    case WriteCalled(frame, at) => if s.isClient then ClientWrite(s, c, frame, at) else ServerWrite(s, c, frame)
    case DelayOver(frame) => ServerWakes(c, frame)
  }

  predicate AllEnabled(s: Settings, c: Conn, events: seq<Event>)
    decreases |events|
  {
    events == [] || (Enabled(s, c, events[0]) && AllEnabled(s, Step(s, c, events[0]), events[1..]))
  }

  function Run(s: Settings, c: Conn, events: seq<Event>): Conn
    requires AllEnabled(s, c, events)
    decreases |events|
  {
    if events == [] then c else Run(s, Step(s, c, events[0]), events[1..])
  }

  lemma RunOne(s: Settings, c: Conn, events: seq<Event>)
    requires events != [] && Enabled(s, c, events[0])
    ensures AllEnabled(s, c, events) == AllEnabled(s, Step(s, c, events[0]), events[1..])
    ensures AllEnabled(s, c, events) ==> Run(s, c, events) == Run(s, Step(s, c, events[0]), events[1..])
  {}

  lemma {:induction false} RunAppend(s: Settings, c: Conn, a: seq<Event>, b: seq<Event>)
    requires AllEnabled(s, c, a) && AllEnabled(s, Run(s, c, a), b)
    ensures AllEnabled(s, c, a + b) && Run(s, c, a + b) == Run(s, Run(s, c, a), b)
    decreases |a|
  {
    if a == [] {
      assert a + b == b;
    } else {
      var c1 := Step(s, c, a[0]);
      assert (a + b)[0] == a[0] && (a + b)[1..] == a[1..] + b;
      RunOne(s, c, a);
      RunAppend(s, c1, a[1..], b);
      RunOne(s, c, a + b);
    }
  }
}
