/**
 The failover client (failover_rtu_client.go). While its connection is passive it hands to its own handler what it overhears
 the active client read, and its own transactions are suppressed; while it is active it is a client like any other.
 */
module Mirror {
  import opened Bytes
  import opened Modbus
  import opened Rtu
  import opened Serial
  import Failover
  import RtuClient
  import FailoverConn

  datatype Event =
    // a packet was read; what OnWrite returns if it is called for it
    | Heard(packet: Packet, taken: Result<()>, at: int)
    // a transaction is started; what OnRead returns if it is called, and whether the write succeeds if it is not suppressed
    | Start(channel: RtuClient.Channel, slaveId: Byte, request: Pdu, fetched: Result<seq<Byte>>, sent: Result<()>, at: int)
    | ReadFailed(error: Failure)
    | TimeOut


  datatype Answer = Answer(channel: RtuClient.Channel, result: Result<()>)

  /** `last` is the request overheard whose reply is awaited; `handed` the calls of OnWrite. */
  datatype State = State(
    conn: Failover.Conn, phase: RtuClient.Phase, last: Pdu, stats: Drops, handed: seq<(Pdu, seq<Byte>)>, answers: seq<Answer>)
  {
    function Reply(channel: RtuClient.Channel, result: Result<()>): State {
      this.(answers := answers + [Answer(channel, result)])
    }

    function Stop(error: Failure): State { this.(phase := RtuClient.Stopped(error)) }

    function Drop(): State { this.(stats := stats.Drop()) }
  }

  /** What a packet does that comes while no transaction is pending. */
  function ReadUnexpected(limits: Limits, s: State, p: Pdu, taken: Result<()>): State {
    if !IsRequestReply(limits, s.last, p) then (if s.last != [] then s.Drop() else s).(last := p)
    else
      var s1 := s.(last := []);
      if IsWriteToServer(FunctionCode(p)) then s1
      else
        var values := ReplyValues(p);
        if values.Err? then s1.Drop()
        else
          var s2 := s1.(handed := s.handed + [(s.last, values.value)]);
          if taken.Err? then s2.Drop() else s2
  }

  /** A packet from the slave asked, or from another, while the transaction act is pending. */
  function React(limits: Limits, s: State, act: RtuClient.Pending, r: Packet, p: Pdu, taken: Result<()>): State
    requires r != [] && |p| >= 2
  {
    if r[0] != act.frame[0] then s.(stats := s.stats.Id())
    else
      var v := RtuClient.Judge(limits, act, p, taken);
      var refused := v.call.Some? && v.call.value.Refused?;
      s.(stats := if !v.counted then s.stats else if refused then s.stats.Remote() else s.stats.Error(),
         handed := s.handed + if v.call.Some? && v.call.value.Delivered? then [(v.call.value.request, v.call.value.values)] else [],
         phase := RtuClient.Idle).Reply(act.channel, v.result)
  }

  /** The connection reads a packet before the loop gets it. A bad one is an error, which ends the loop. */
  function Receive(settings: Failover.Settings, s: State, r: Packet, taken: Result<()>, at: int): State {
    var (c, v) := Failover.ClientPacket(settings, s.conn, r, at);
    var s1 := s.(conn := c.(lastRead := Some(at)));
    if v.Failed? then s1.Stop(v.error)
    else
      var p := GetPdu(r).value;
      if s.phase.Waiting? then React(settings.limits, s1, s.phase.act, r, p, taken)
      else ReadUnexpected(settings.limits, s1, p, taken)
  }

  /** The connection decides whether a write goes out; if it does not, the transaction has succeeded. */
  function Begin(settings: Failover.Settings, s: State, e: Event): State
    requires e.Start?
  {
    var frame := RtuClient.MakeFrame(e.slaveId, e.request, e.fetched);
    if frame.Err? then s.Reply(e.channel, Err(frame.error))
    else
      var s1 := s.(conn := Failover.ClientWrite(settings, s.conn, frame.value, e.at));
      if s1.conn.isActive && e.sent.Err? then s1.Reply(e.channel, e.sent).Stop(e.sent.error)
      else if e.slaveId == 0 || !s1.conn.isActive then s1.Reply(e.channel, Ok(()))
      else s1.(phase := RtuClient.Waiting(RtuClient.Pending(e.channel, frame.value, FunctionCode(e.request))))
  }

  function Step(settings: Failover.Settings, s: State, e: Event): State {
    if s.phase.Stopped? then s
    else if e.ReadFailed? then s.Stop(e.error)
    else if e.Heard? then Receive(settings, s, e.packet, e.taken, e.at)
    else if s.phase.Idle? then (if e.Start? then Begin(settings, s, e) else s)
    else
      var s1 := s.Reply(s.phase.act.channel, Err(Other));
      if e.TimeOut? then s1.(phase := RtuClient.Idle) else s1.Stop(Other)
  }

  function Run(settings: Failover.Settings, s: State, events: seq<Event>): State
    decreases |events|
  {
    if events == [] then s else Run(settings, Step(settings, s, events[0]), events[1..])
  }

  lemma {:induction false} StoppedStays(settings: Failover.Settings, s: State, events: seq<Event>)
    requires s.phase.Stopped?
    ensures Run(settings, s, events) == s
    decreases |events|
  {
    if events != [] { StoppedStays(settings, s, events[1..]); }
  }

  class FailoverRtuClient {
    const com: FailoverConn.FailoverSerialConn
    var last: Pdu
    var stats: Drops
    var handed: seq<(Pdu, seq<Byte>)>
    var answers: seq<Answer>

    constructor (com: FailoverConn.FailoverSerialConn)
      ensures this.com == com && Model(RtuClient.Idle) == State(com.Model(), RtuClient.Idle, [], NO_DROPS, [], [])
    {
      this.com := com;
      last, stats, handed, answers := [], NO_DROPS, [], [];
    }

    ghost function Model(phase: RtuClient.Phase): State
      reads this, com
    {
      State(com.Model(), phase, last, stats, handed, answers)
    }

    method Overhear(p: Pdu, taken: Result<()>)
      modifies this
      ensures Model(RtuClient.Idle) == ReadUnexpected(com.settings.limits, old(Model(RtuClient.Idle)), p, taken)
    {
      if !IsRequestReply(com.settings.limits, last, p) {
        if last != [] { stats := stats.Drop(); }
        last := p;
        return;
      }
      var request := last;
      last := [];
      if IsWriteToServer(FunctionCode(p)) { return; }
      var values := ReplyValues(p);
      if values.Err? {
        stats := stats.Drop();
        return;
      }
      handed := handed + [(request, values.value)];
      if taken.Err? { stats := stats.Drop(); }
    }

    /** The packet r, which holds p, arrived while the transaction act is pending. */
    method ReadReply(act: RtuClient.Pending, r: Packet, p: Pdu, taken: Result<()>) returns (phase: RtuClient.Phase)
      requires r != [] && |p| >= 2
      modifies this
      ensures Model(phase) == React(com.settings.limits, old(Model(RtuClient.Waiting(act))), act, r, p, taken)
    {
      if r[0] != act.frame[0] {
        stats := stats.Id();
        return RtuClient.Waiting(act);
      }
      var request, f, result := FastPdu(act.frame), FunctionCode(p), Ok(());
      if IsError(f) && WithoutError(f) == act.code {
        stats := stats.Remote();
        result := Err(Exception(p[1]));
      } else if !IsRequestReply(com.settings.limits, request, p) {
        stats := stats.Error();
        result := Err(Other);
      } else if IsReadToServer(act.code) {
        var values := ReplyValues(p);
        if values.Err? {
          stats := stats.Error();
          result := Err(values.error);
        } else {
          handed := handed + [(request, values.value)];
          if taken.Err? { stats := stats.Error(); }
          result := taken;
        }
      }
      answers := answers + [Answer(act.channel, result)];
      return RtuClient.Idle;
    }

    method ReadPacket(phase: RtuClient.Phase, r: Packet, taken: Result<()>, at: int) returns (next: RtuClient.Phase)
      requires !phase.Stopped?
      modifies this, com
      ensures Model(next) == Receive(com.settings, old(Model(phase)), r, taken, at)
    {
      var v := com.ClientRead(r, at);
      com.ReadReturns(at);
      if v.Failed? { return RtuClient.Stopped(v.error); }
      var p := GetPdu(r).value;
      if phase.Waiting? {
        next := ReadReply(phase.act, r, p, taken);
      } else {
        Overhear(p, taken);
        next := RtuClient.Idle;
      }
    }

    method StartTransaction(e: Event) returns (phase: RtuClient.Phase)
      requires e.Start?
      modifies this, com
      ensures Model(phase) == Begin(com.settings, old(Model(RtuClient.Idle)), e)
    {
      var frame := RtuClient.MakeFrame(e.slaveId, e.request, e.fetched);
      if frame.Err? {
        answers := answers + [Answer(e.channel, Err(frame.error))];
        return RtuClient.Idle;
      }
      var active := com.ClientWrite(frame.value, e.at);
      if active && e.sent.Err? {
        answers := answers + [Answer(e.channel, e.sent)];
        return RtuClient.Stopped(e.sent.error);
      }
      if e.slaveId == 0 || !active {
        answers := answers + [Answer(e.channel, Ok(()))];
        return RtuClient.Idle;
      }
      return RtuClient.Waiting(RtuClient.Pending(e.channel, frame.value, FunctionCode(e.request)));
    }

    /** Runs until an error ends it, or no more actions come. */
    method Serve(events: seq<Event>) returns (phase: RtuClient.Phase)
      modifies this, com
      ensures Model(phase) == Run(com.settings, old(Model(RtuClient.Idle)), events)
    {
      ghost var end := Run(com.settings, Model(RtuClient.Idle), events);
      phase := RtuClient.Idle;
      var i := 0;
      while i < |events|
        invariant i <= |events| && Run(com.settings, Model(phase), events[i..]) == end
        invariant phase.Idle? || i == |events|
      {
        assert events[i..][1..] == events[i + 1..];
        phase := Turn(phase, events[i]);
        i := i + 1;
        ghost var first := i;
        while phase.Waiting? && i < |events|
          invariant first <= i <= |events| && Run(com.settings, Model(phase), events[i..]) == end
        {
          assert events[i..][1..] == events[i + 1..];
          phase := Turn(phase, events[i]);
          i := i + 1;
        }
        if phase.Stopped? {
          StoppedStays(com.settings, Model(phase), events[i..]);
          return;
        }
      }
    }

    method Turn(phase: RtuClient.Phase, e: Event) returns (next: RtuClient.Phase)
      requires !phase.Stopped?
      modifies this, com
      ensures Model(next) == Step(com.settings, old(Model(phase)), e)
    {
      if e.ReadFailed? { return RtuClient.Stopped(e.error); }
      if e.Heard? {
        next := ReadPacket(phase, e.packet, e.taken, e.at);
      } else if phase.Idle? {
        next := phase;
        if e.Start? { next := StartTransaction(e); }
      } else {
        answers := answers + [Answer(phase.act.channel, Err(Other))];
        next := if e.TimeOut? then RtuClient.Idle else RtuClient.Stopped(Other);
      }
    }
  }
}
