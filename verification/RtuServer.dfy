/** The server loop (rtu_server.go): what the handler and the wire do with each packet is part of the event that brings it. */
module RtuServer {
  import opened Bytes
  import opened Modbus
  import opened Seqs
  import opened Rtu
  import opened Serial

  /**
   What the packet reader returned. For a packet: what the handler's OnRead and OnWrite return if they are called for it,
   and whether the write of the reply succeeds.
   */
  datatype Event =
    | PacketRead(packet: Packet, fetched: Result<seq<Byte>>, taken: Result<()>, sent: Result<()>)
    | ReadFailed(error: Failure)

  /** The counters, the frames sent, the calls of OnWrite, and the error Serve returned, if it did. */
  datatype State = State(stats: Drops, out: seq<Packet>, writes: seq<(Pdu, seq<Byte>)>, stopped: Option<Failure>)

  const START := State(NO_DROPS, [], [], None)

  // ----- one request

  /** What the loop does with a request addressed to it: the reply, or the error to report. */
  function Outcome(oversize: bool, p: Pdu, fetched: Result<seq<Byte>>, taken: Result<()>): Result<Pdu> {
    var _ :- ValidateRequest(p);
    if IsReadToServer(FunctionCode(p)) then
      var data :- fetched;
      Ok(MakeReadReply(p, data))
    else
      var _ :- RequestValues(oversize, p);
      var _ :- taken;
      Ok(MakeWriteReply(p))
  }

  function Reply(oversize: bool, p: Pdu, fetched: Result<seq<Byte>>, taken: Result<()>): Pdu {
    var o := Outcome(oversize, p, fetched, taken);
    if o.Ok? then o.value else ExceptionReply(p, ToExceptionCode(o.error))
  }

  /** The call of OnWrite the request leads to. */
  function WriteCall(oversize: bool, p: Pdu): seq<(Pdu, seq<Byte>)> {
    if ValidateRequest(p).Ok? && !IsReadToServer(FunctionCode(p)) && RequestValues(oversize, p).Ok?
      then [(p, RequestValues(oversize, p).value)] else []
  }

  // ----- the loop

  predicate Mine(id: Byte, r: Packet) { GetPdu(r).Ok? && (r[0] == 0 || r[0] == id) }

  /** Sending is skipped for a broadcast; a failing write ends the loop. */
  function Send(s: State, id: Byte, p: Pdu, sent: Result<()>): State {
    if id == 0 then s
    else if sent.Err? then s.(stopped := Some(sent.error))
    else s.(out := s.out + [MakeRtu(id, p)])
  }

  function Serve1(oversize: bool, s: State, r: Packet, p: Pdu, e: Event): State
    requires e.PacketRead? && r != []
  {
    var s1 := s.(writes := s.writes + WriteCall(oversize, p));
    var s2 := if Outcome(oversize, p, e.fetched, e.taken).Err? then s1.(stats := s1.stats.Error()) else s1;
    Send(s2, r[0], Reply(oversize, p, e.fetched, e.taken), e.sent)
  }

  function Step(id: Byte, oversize: bool, s: State, e: Event): State {
    match e
    case ReadFailed(error) => s.(stopped := Some(error))
    case PacketRead(r, _, _, _) =>
      var p := GetPdu(r);
      if p.Err? then s.(stats := if p.error == CrcError then s.stats.Crc() else s.stats.Error())
      else if !Mine(id, r) then s.(stats := s.stats.Id())
      else Serve1(oversize, s, r, p.value, e)
  }

  function Run(id: Byte, oversize: bool, s: State, events: seq<Event>): State
    decreases |events|
  {
    if s.stopped.Some? || events == [] then s else Run(id, oversize, Step(id, oversize, s, events[0]), events[1..])
  }

  class RtuServer {
    const slaveId: Byte
    const oversize: bool
    var stats: Drops
    var out: seq<Packet>
    var writes: seq<(Pdu, seq<Byte>)>

    constructor (slaveId: Byte, oversize: bool)
      ensures this.slaveId == slaveId && this.oversize == oversize && Model(None) == START
    {
      this.slaveId, this.oversize := slaveId, oversize;
      stats, out, writes := NO_DROPS, [], [];
    }

    ghost function Model(stopped: Option<Failure>): State
      reads this
    {
      State(stats, out, writes, stopped)
    }

    method WriteReply(id: Byte, p: Pdu, sent: Result<()>) returns (ioErr: Option<Failure>)
      modifies this
      ensures Model(ioErr) == Send(old(Model(None)), id, p, sent)
    {
      if id == 0 { return None; }
      if sent.Err? { return Some(sent.error); }
      out := out + [MakeRtu(id, p)];
      return None;
    }

    method WriteException(id: Byte, p: Pdu, error: Failure, sent: Result<()>) returns (ioErr: Option<Failure>)
      modifies this
      ensures Model(ioErr) == Send(old(Model(None)), id, ExceptionReply(p, ToExceptionCode(error)), sent)
    {
      ioErr := WriteReply(id, ExceptionReply(p, ToExceptionCode(error)), sent);
    }

    method Answer(r: Packet, p: Pdu, e: Event) returns (ioErr: Option<Failure>)
      requires e.PacketRead? && r != []
      modifies this
      ensures Model(ioErr) == Serve1(oversize, old(Model(None)), r, p, e)
    {
      var v := ValidateRequest(p);
      if v.Err? {
        stats := stats.Error();
        ioErr := WriteException(r[0], p, v.error, e.sent);
      } else if IsReadToServer(FunctionCode(p)) {
        if e.fetched.Err? {
          stats := stats.Error();
          ioErr := WriteException(r[0], p, e.fetched.error, e.sent);
        } else {
          ioErr := WriteReply(r[0], MakeReadReply(p, e.fetched.value), e.sent);
        }
      } else {
        var data := RequestValues(oversize, p);
        if data.Err? {
          stats := stats.Error();
          ioErr := WriteException(r[0], p, data.error, e.sent);
        } else {
          writes := writes + [(p, data.value)];
          if e.taken.Err? {
            stats := stats.Error();
            ioErr := WriteException(r[0], p, e.taken.error, e.sent);
          } else {
            ioErr := WriteReply(r[0], MakeWriteReply(p), e.sent);
          }
        }
      }
    }

    /** Runs until a read or a write fails, or nothing more arrives. */
    method Serve(events: seq<Event>) returns (ioErr: Option<Failure>)
      modifies this
      ensures Model(ioErr) == Run(slaveId, oversize, old(Model(None)), events)
    {
      ioErr := None;
      var i := 0;
      while i < |events| && ioErr.None?
        invariant i <= |events|
        invariant Run(slaveId, oversize, Model(ioErr), events[i..]) == Run(slaveId, oversize, old(Model(None)), events)
      {
        var e := events[i];
        i := i + 1;
        assert events[i - 1..][1..] == events[i..];
        if e.ReadFailed? {
          ioErr := Some(e.error);
          continue;
        }
        var p := GetPdu(e.packet);
        if p.Err? {
          if p.error == CrcError { stats := stats.Crc(); } else { stats := stats.Error(); }
          continue;
        }
        if e.packet[0] != 0 && e.packet[0] != slaveId {
          stats := stats.Id();
          continue;
        }
        ioErr := Answer(e.packet, p.value, e);
      }
    }
  }

  // ----- every request of its own gets one reply

  predicate Asks(id: Byte, e: Event) { e.PacketRead? && GetPdu(e.packet).Ok? && e.packet[0] == id }

  /** The packets that must be answered: valid ones for the server's own id. */
  function Asked(id: Byte, events: seq<Event>): (a: seq<Event>)
    ensures forall e :: e in a ==> Asks(id, e)
  {
    if events == [] then []
    else if Asks(id, events[0]) then [events[0]] + Asked(id, events[1..])
    else Asked(id, events[1..])
  }

  /**
   The frame `out` answers the request in e: it is valid, from the server, for the same function or with the error flag,
   which is set exactly when the request is refused or its handler fails, and then tells why.
   */
  predicate Answers(id: Byte, oversize: bool, e: Event, out: Packet) {
    && e.PacketRead? && GetPdu(e.packet).Ok? && GetPdu(out).Ok? && out[0] == id
    && var p, q := GetPdu(e.packet).value, GetPdu(out).value;
       Tells(p, q, Outcome(oversize, p, e.fetched, e.taken))
  }

  predicate Tells(p: Pdu, q: Pdu, o: Result<Pdu>) {
    && WithoutError(FunctionCode(q)) == WithoutError(FunctionCode(p))
    && (MatchPdu(p, q) <==> !IsError(FunctionCode(p)))
    && (o.Ok? ==> FunctionCode(q) == FunctionCode(p) && q == o.value)
    && (o.Err? ==> IsError(FunctionCode(q)) && |q| == 2 && q[1] == ToExceptionCode(o.error))
  }

  lemma ReplyTells(oversize: bool, p: Pdu, fetched: Result<seq<Byte>>, taken: Result<()>)
    ensures var q := Reply(oversize, p, fetched, taken);
            |q| >= 2 && Tells(p, q, Outcome(oversize, p, fetched, taken))
  {}

  lemma ReplyAnswers(id: Byte, oversize: bool, e: Event)
    requires e.PacketRead? && GetPdu(e.packet).Ok?
    ensures Answers(id, oversize, e, MakeRtu(id, Reply(oversize, GetPdu(e.packet).value, e.fetched, e.taken)))
  {
    var p := GetPdu(e.packet).value;
    ReplyTells(oversize, p, e.fetched, e.taken);
    GetPduOfMakeRtu(id, Reply(oversize, p, e.fetched, e.taken));
  }

  /** Every event is a packet whose reply, if any, can be written. */
  predicate Smooth(events: seq<Event>) { forall e :: e in events ==> e.PacketRead? && e.sent.Ok? }

  function Judge(id: Byte, oversize: bool): (Event, Packet) -> bool { (e, out) => Answers(id, oversize, e, out) }

  /** What `all` has beyond `before` corresponds to `asked`, one to one and in order. */
  ghost predicate Paired<A, B>(asked: seq<A>, before: seq<B>, all: seq<B>, ok: (A, B) -> bool) {
    |all| == |before| + |asked| && forall i :: 0 <= i < |asked| ==> ok(asked[i], all[|before| + i])
  }

  /** One packet: a reply if it asks the server for one, and nothing else. */
  lemma StepReplies(id: Byte, oversize: bool, s: State, e: Event)
    requires id != 0 && e.PacketRead? && e.sent.Ok? && s.stopped.None?
    ensures var s' := Step(id, oversize, s, e);
            && s'.stopped.None?
            && if Asks(id, e)
               then |s'.out| == |s.out| + 1 && s'.out[..|s.out|] == s.out && Answers(id, oversize, e, s'.out[|s.out|])
               else s'.out == s.out
  {
    if GetPdu(e.packet).Ok? { ReplyAnswers(id, oversize, e); }
  }

  /**
   Over every sequence of packets, each valid packet for the server's own id has exactly one response, in order; nothing
   else has one: not broadcasts, not packets for others, not damaged packets.
   */
  lemma {:induction false} OneReplyEach(id: Byte, oversize: bool, s: State, events: seq<Event>)
    requires id != 0 && Smooth(events) && s.stopped.None?
    ensures var s' := Run(id, oversize, s, events);
            && s'.stopped.None? && s.out <= s'.out
            && Paired(Asked(id, events), s.out, s'.out, Judge(id, oversize))
    decreases |events|
  {
    if events != [] {
      var e, s1 := events[0], Step(id, oversize, s, events[0]);
      StepReplies(id, oversize, s, e);
      OneReplyEach(id, oversize, s1, events[1..]);
      if Asks(id, e) {
        PairedCons(e, Asked(id, events[1..]), s.out, s1.out, Run(id, oversize, s1, events[1..]).out, Judge(id, oversize));
      }
    }
  }

  lemma PairedCons<A, B>(a: A, rest: seq<A>, before: seq<B>, next: seq<B>, all: seq<B>, ok: (A, B) -> bool)
    requires |next| == |before| + 1 && next[..|before|] == before && ok(a, next[|before|])
    requires next <= all && Paired(rest, next, all, ok)
    ensures Paired([a] + rest, before, all, ok)
  {
    forall i | 0 <= i < |[a] + rest|
      ensures ok(([a] + rest)[i], all[|before| + i])
    {
      if i > 0 { assert |before| + i == |next| + (i - 1); }
    }
  }

  function CallFor(id: Byte, oversize: bool, e: Event): seq<(Pdu, seq<Byte>)> {
    if e.PacketRead? && Mine(id, e.packet) then WriteCall(oversize, GetPdu(e.packet).value) else []
  }

  /** The writes requested of the server, by requests to it and by broadcasts. */
  function WriteCalls(id: Byte, oversize: bool, events: seq<Event>): seq<(Pdu, seq<Byte>)> {
    if events == [] then [] else CallFor(id, oversize, events[0]) + WriteCalls(id, oversize, events[1..])
  }

  lemma StepCalls(id: Byte, oversize: bool, s: State, e: Event)
    requires e.PacketRead? && e.sent.Ok? && s.stopped.None?
    ensures var s' := Step(id, oversize, s, e);
            && s'.stopped.None?
            && s'.writes == s.writes + CallFor(id, oversize, e)
  {}

  /** The handler is called exactly once, in order, for every acceptable write to the server or to all. */
  lemma {:induction false} OneCallEach(id: Byte, oversize: bool, s: State, events: seq<Event>)
    requires Smooth(events) && s.stopped.None?
    ensures Run(id, oversize, s, events).writes == s.writes + WriteCalls(id, oversize, events)
    decreases |events|
  {
    if events != [] {
      StepCalls(id, oversize, s, events[0]);
      OneCallEach(id, oversize, Step(id, oversize, s, events[0]), events[1..]);
      Regroup(s.writes, CallFor(id, oversize, events[0]), WriteCalls(id, oversize, events[1..]));
    }
  }

  function Count(events: seq<Event>, p: Event -> bool): nat {
    if events == [] then 0 else (if p(events[0]) then 1 else 0) + Count(events[1..], p)
  }

  /** A packet whose checksum is wrong. */
  predicate Damaged(e: Event) { e.PacketRead? && GetPdu(e.packet) == Err(CrcError) }

  /** A valid packet to another slave. */
  predicate Elsewhere(id: Byte, e: Event) { e.PacketRead? && GetPdu(e.packet).Ok? && e.packet[0] != 0 && e.packet[0] != id }

  /** A request to the server or to all that is carried out without an error. */
  predicate CarriedOut(id: Byte, oversize: bool, e: Event) {
    e.PacketRead? && Mine(id, e.packet) && Outcome(oversize, GetPdu(e.packet).value, e.fetched, e.taken).Ok?
  }

  lemma StepCounted(id: Byte, oversize: bool, s: State, e: Event)
    requires e.PacketRead? && e.sent.Ok? && s.stopped.None?
    ensures var a, b := s.stats, Step(id, oversize, s, e).stats;
            && b.crcErrors == a.crcErrors + (if Damaged(e) then 1 else 0)
            && b.idDrops == a.idDrops + (if Elsewhere(id, e) then 1 else 0)
            && b.otherErrors == a.otherErrors + (if Damaged(e) || Elsewhere(id, e) || CarriedOut(id, oversize, e) then 0 else 1)
            && b.remoteErrors == a.remoteErrors && b.otherDrops == a.otherDrops
            && !(Damaged(e) && Elsewhere(id, e)) && !(CarriedOut(id, oversize, e) && (Damaged(e) || Elsewhere(id, e)))
  {}

  /** Every packet is accounted for once: damaged, for another slave, carried out, or an error of another kind. */
  lemma {:induction false} EveryPacketCounted(id: Byte, oversize: bool, s: State, events: seq<Event>)
    requires Smooth(events) && s.stopped.None?
    ensures var a, b := s.stats, Run(id, oversize, s, events).stats;
            && b.crcErrors - a.crcErrors == Count(events, e => Damaged(e))
            && b.idDrops - a.idDrops == Count(events, e => Elsewhere(id, e))
            && |events| == (b.crcErrors - a.crcErrors) + (b.idDrops - a.idDrops) + (b.otherErrors - a.otherErrors)
                 + Count(events, e => CarriedOut(id, oversize, e))
            && b.remoteErrors == a.remoteErrors && b.otherDrops == a.otherDrops
    decreases |events|
  {
    if events != [] {
      StepCalls(id, oversize, s, events[0]);
      StepCounted(id, oversize, s, events[0]);
      EveryPacketCounted(id, oversize, Step(id, oversize, s, events[0]), events[1..]);
    }
  }

  /** Nothing happens after a failed read or a failed write of a reply. */
  lemma {:induction false} FailureEnds(id: Byte, oversize: bool, s: State, before: seq<Event>, e: Event, after: seq<Event>)
    requires s.stopped.None? && Smooth(before)
    requires e.ReadFailed? || (e.sent.Err? && Mine(id, e.packet) && e.packet[0] != 0)
    ensures var s1 := Run(id, oversize, s, before);
            var s' := Run(id, oversize, s, before + [e] + after);
            && s'.stopped == Some(if e.ReadFailed? then e.error else e.sent.error)
            && s'.out == s1.out
    decreases |before|
  {
    var all := before + [e] + after;
    if before == [] {
      assert all[0] == e;
    } else {
      assert all[1..] == before[1..] + [e] + after;
      FailureEnds(id, oversize, Step(id, oversize, s, before[0]), before[1..], e, after);
    }
  }
}
