/** The packet reader as the imperative code it is: rtuPacketReader of packet_reader.go. */
module PacketReader {
  import opened Bytes
  import opened Modbus
  import opened RtuSize
  import opened ReaderModel
  import CrcTable

  // ----- the port

  /**
   One read with room for `room` bytes; what does not fit stays for the next read. The error comes with the last byte.
   */
  function Deliver(script: seq<PortRead>, room: nat): (r: (PortRead, seq<PortRead>))
    requires script != []
    ensures |r.0.data| <= room
  {
    var e := script[0];
    if |e.data| <= room then (e, script[1..])
    else (PortRead(e.data[..room], false, e.now, e.later), [e.(data := e.data[room..])] + script[1..])
  }

  function Weight(script: seq<PortRead>): nat {
    if script == [] then 0 else |script[0].data| + 1 + Weight(script[1..])
  }

  lemma DeliverLightens(script: seq<PortRead>, room: nat)
    requires script != []
    ensures var (e, rest) := Deliver(script, room);
            Weight(rest) < Weight(script) || (room == 0 && e.data == [] && Weight(rest) == Weight(script))
  {}

  /** The serial port, with all it will deliver. */
  class Port {
    var script: seq<PortRead>

    constructor (script: seq<PortRead>)
      ensures this.script == script
    {
      this.script := script;
    }

    method Read(room: nat) returns (e: PortRead)
      requires script != []
      modifies this
      ensures (e, script) == Deliver(old(script), room)
    {
      var head := script[0];
      if |head.data| <= room {
        e, script := head, script[1..];
      } else {
        e := PortRead(head.data[..room], false, head.now, head.later);
        script := [head.(data := head.data[room..])] + script[1..];
      }
    }
  }

  // ----- one call, as a function of the port's script

  /** A call served until it returns or the script is used up. */
  function Serve(cfg: Config, c: Call, script: seq<PortRead>): (Call, seq<PortRead>)
    requires c.Waiting? ==> Idle(cfg, c)
    decreases Weight(script), if c.Waiting? then |c.held| + 1 else 0
  {
    if c.Returned? || script == [] then (c, script)
    else
      var (e, rest) := Deliver(script, cfg.size - |c.held|);
      DeliverLightens(script, cfg.size - |c.held|);
      Serve(cfg, Resume(cfg, c, e), rest)
  }

  // ----- the deterministic steps between the loop heads

  /** What one port read leads to: a new packet begun after a silence, the end of the call, or more bytes in hand. */
  datatype Polled = Restarted(r: Reader) | Ended(c: Call) | Grown(r: Reader, held: seq<Byte>)

  function Poll(cfg: Config, r: Reader, held: seq<Byte>, e: PortRead): Polled
    requires |held| + |e.data| <= cfg.size
  {
    if held != [] && e.now - r.lastReadAt > cfg.cutoff(|e.data|) then
      Restarted(r.(last := e.data, lastReadAt := e.later,
                   stats := r.stats.(otherDrops := r.stats.otherDrops + 1)).Note(Stale, held))
    else
      var r' := if e.data == [] then r else r.(lastReadAt := e.now);
      var h := held + e.data;
      if e.failed then Ended(Returned(r'.Note(PortError, h), h, true))
      else if |h| == cfg.size then Ended(Returned(r'.Note(Full, h), h, false))
      else Grown(r', h)
  }

  lemma ResumeIsPoll(cfg: Config, c: Call, e: PortRead)
    requires Idle(cfg, c) && |c.held| + |e.data| <= cfg.size
    ensures var o := Poll(cfg, c.r, c.held, e);
            && (o.Restarted? ==> Resume(cfg, c, e) == Head(cfg, o.r, [], SMALLEST_RTU_SIZE))
            && (o.Ended? ==> Resume(cfg, c, e) == o.c)
            && (o.Grown? ==> o.r.last == [] && |o.held| <= cfg.size && Resume(cfg, c, e) == After(cfg, o.r, o.held, c.expected))
  {}

  /** What the checksum decides: the end of the call, or a fresh start. */
  datatype Judged = Passed(c: Call) | Rejected(r: Reader)

  function Judge(cfg: Config, r: Reader, held: seq<Byte>, expected: nat): Judged
    requires expected <= |held|
  {
    var s := r.stats;
    if |held| > expected && cfg.valid(held[..expected]) then
      Passed(Returned(
        r.(last := held[expected..], lastRtu := held[..expected],
           stats := s.(longReadWarnings := s.longReadWarnings + 1)).Note(Packet, held[..expected]),
        held[..expected], false))
    else if cfg.valid(held) then
      Passed(Returned(
        r.(lastRtu := held,
           stats := s.(formateWarnings := s.formateWarnings + if |held| != expected then 1 else 0)).Note(Packet, held),
        held, false))
    else Rejected(r.(stats := s.(crcErrors := s.crcErrors + 1)).Note(BadCrc, held))
  }

  lemma HeadIsJudge(cfg: Config, r: Reader, held: seq<Byte>, expected: nat)
    requires SMALLEST_RTU_SIZE <= expected <= |held| <= cfg.size && r.last == []
    ensures var j := Judge(cfg, r, held, expected);
            && (j.Passed? ==> Head(cfg, r, held, expected) == j.c)
            && (j.Rejected? ==> Head(cfg, r, held, expected) == Begin(cfg, j.r))
  {
    assert Head(cfg, r, held, expected) == Close(cfg, r, held, expected);
  }

  lemma HeadCarriesOver(cfg: Config, r: Reader, expected: nat)
    requires r.last != [] && expected >= SMALLEST_RTU_SIZE
    ensures Head(cfg, r, [], expected) == After(cfg, r.(last := []), r.last[..Min(|r.last|, cfg.size)], expected)
  {}

  lemma AfterIsHead(cfg: Config, r: Reader, held: seq<Byte>, expected: nat)
    requires expected >= SMALLEST_RTU_SIZE && r.last == [] && |held| <= cfg.size
    ensures After(cfg, r, held, expected) == Head(cfg, r, held, if |held| < expected then expected else cfg.sizeOf(held, r.lastRtu))
  {}

  lemma HeadWaits(cfg: Config, r: Reader, held: seq<Byte>, expected: nat)
    requires expected >= SMALLEST_RTU_SIZE && r.last == [] && |held| <= cfg.size && |held| < expected
    ensures Head(cfg, r, held, expected) == Waiting(r, held, expected)
  {}

  lemma ServeStep(cfg: Config, c: Call, script: seq<PortRead>)
    requires Idle(cfg, c) && script != []
    ensures var (e, rest) := Deliver(script, cfg.size - |c.held|);
            Serve(cfg, c, script) == Serve(cfg, Resume(cfg, c, e), rest)
  {}

  /**
   A run of the reader is its calls one after the other: the first call ends as Serve says, and the run goes on from
   there with the calls that follow. What holds of every run therefore holds of the method Read called over and over.
   */
  lemma {:induction false} RunIsCalls(cfg: Config, c: Call, script: seq<PortRead>)
    requires Idle(cfg, c) && Fits(cfg, c, script)
    ensures var (c', rest) := Serve(cfg, c, script);
            && (c'.Waiting? ==> rest == [] && Run(cfg, c, script) == c')
            && (c'.Returned? ==> Fits(cfg, Settle(cfg, c'), rest) && Run(cfg, c, script) == Run(cfg, Settle(cfg, c'), rest))
    decreases |script|
  {
    if script != [] {
      ServeStep(cfg, c, script);
      var c1 := Resume(cfg, c, script[0]);
      if c1.Waiting? {
        RunIsCalls(cfg, c1, script[1..]);
      }
    }
  }

  // ----- the reader

  /** How a call ends: with a packet, with an error of the port, or not at all while the port has nothing to deliver. */
  datatype Status = Done | PortFailed | Blocked

  datatype Progress = Restart | More | Stop

  lemma WaitingServes(cfg: Config, r: Reader, held: seq<Byte>, expected: nat, script: seq<PortRead>)
    requires SMALLEST_RTU_SIZE <= expected && |held| < expected && |held| <= cfg.size && r.last == [] && script != []
    ensures var (e, rest) := Deliver(script, cfg.size - |held|);
            Serve(cfg, Head(cfg, r, held, expected), script) == Serve(cfg, Resume(cfg, Waiting(r, held, expected), e), rest)
  {
    HeadWaits(cfg, r, held, expected);
    ServeStep(cfg, Waiting(r, held, expected), script);
  }

  /** One read of the port, by what it does to the call that waits for it. */
  lemma PollServes(cfg: Config, r: Reader, held: seq<Byte>, expected: nat, script: seq<PortRead>)
    requires SMALLEST_RTU_SIZE <= expected && |held| < expected && |held| <= cfg.size && r.last == [] && script != []
    ensures var (e, rest) := Deliver(script, cfg.size - |held|);
            var o, all := Poll(cfg, r, held, e), Serve(cfg, Head(cfg, r, held, expected), script);
            && (o.Restarted? ==> all == Serve(cfg, Head(cfg, o.r, [], SMALLEST_RTU_SIZE), rest))
            && (o.Ended? ==> o.c.Returned? && all == Serve(cfg, o.c, rest))
            && (o.Grown? ==> o.r.last == [] && |o.held| <= cfg.size && all == Serve(cfg, After(cfg, o.r, o.held, expected), rest))
  {
    WaitingServes(cfg, r, held, expected, script);
    ResumeIsPoll(cfg, Waiting(r, held, expected), Deliver(script, cfg.size - |held|).0);
  }

  class RtuPacketReader {
    const port: Port
    const mode: Mode
    const limits: Limits
    const cutoff: nat -> int
    var last: seq<Byte>
    var lastRtu: seq<Byte>
    var lastReadAt: int
    var stats: Stats
    ghost var log: seq<Segment>

    constructor (port: Port, mode: Mode, limits: Limits, cutoff: nat -> int)
      ensures this.port == port && this.mode == mode && this.limits == limits && this.cutoff == cutoff
      ensures Model() == NewReader(lastReadAt)
    {
      this.port, this.mode, this.limits, this.cutoff := port, mode, limits, cutoff;
      last, lastRtu, stats, log := [], [], NO_STATS, [];
    }

    /** The fields as a value. */
    ghost function Model(): Reader
      reads this
    {
      Reader(last, lastRtu, lastReadAt, stats, log)
    }

    ghost function Setting(size: nat): Config { RtuReader(mode, limits, cutoff, size) }

    /** Copies the bytes carried over to the start of the buffer. */
    method CarryOver(p: array<Byte>) returns (read: nat)
      modifies this`last, p
      ensures read == Min(|old(last)|, p.Length) && p[..read] == old(last)[..read] && last == []
    {
      read := Min(|last|, p.Length);
      forall i | 0 <= i < read { p[i] := last[i]; }
      last := [];
    }

    /** Reads the port behind the first `read` bytes of the buffer. */
    method PollPort(p: array<Byte>, read: nat) returns (n: nat, progress: Progress, status: Status)
      requires read <= p.Length && last == [] && port.script != []
      modifies this, port, p
      ensures n <= p.Length
      ensures var (e, rest) := Deliver(old(port.script), p.Length - read);
              && port.script == rest
              && match Poll(Setting(p.Length), old(Model()), old(p[..read]), e)
                 case Restarted(r) => progress == Restart && Model() == r
                 case Ended(c) =>
                   progress == Stop && Model() == c.r && p[..n] == c.bytes && status == if c.failed then PortFailed else Done
                 case Grown(r, held) => progress == More && Model() == r && p[..n] == held
    {
      ghost var held := p[..read];
      var e := port.Read(p.Length - read);
      forall i | 0 <= i < |e.data| { p[read + i] := e.data[i]; }
      n := read + |e.data|;
      assert p[..read] == held && p[read..n] == e.data && p[..n] == held + e.data;
      if read > 0 && e.now - lastReadAt > cutoff(|e.data|) {
        last := p[read..n];
        lastReadAt := e.later;
        stats := stats.(otherDrops := stats.otherDrops + 1);
        log := log + [Segment(Stale, held)];
        return 0, Restart, Done;
      }
      if |e.data| > 0 {
        lastReadAt := e.now;
      }
      if e.failed || n == p.Length {
        log := log + [Segment(if e.failed then PortError else Full, p[..n])];
        return n, Stop, if e.failed then PortFailed else Done;
      }
      return n, More, Done;
    }

    /** Tests the checksum of what was read. */
    method CheckSum(p: array<Byte>, read: nat, expected: nat) returns (n: nat, ok: bool)
      requires expected <= read <= p.Length
      modifies this
      ensures n <= p.Length
      ensures match Judge(Setting(p.Length), old(Model()), p[..read], expected)
              case Passed(c) => ok && Model() == c.r && p[..n] == c.bytes && !c.failed
              case Rejected(r) => !ok && Model() == r
    {
      assert p[..read][..expected] == p[..expected] && p[..read][expected..] == p[expected..read];
      if read > expected {
        ok := CrcTable.Validate(p[..expected]);
        if ok {
          stats := stats.(longReadWarnings := stats.longReadWarnings + 1);
          last, lastRtu := p[expected..read], p[..expected];
          log := log + [Segment(Packet, p[..expected])];
          return expected, true;
        }
      }
      ok := CrcTable.Validate(p[..read]);
      if ok {
        if read != expected {
          stats := stats.(formateWarnings := stats.formateWarnings + 1);
        }
        lastRtu := p[..read];
        log := log + [Segment(Packet, p[..read])];
      } else {
        stats := stats.(crcErrors := stats.crcErrors + 1);
        log := log + [Segment(BadCrc, p[..read])];
      }
      n := read;
    }

    /** The call ended as the value c says, with `rest` left in the port. */
    ghost predicate Ends(p: array<Byte>, n: nat, status: Status, c: Call, rest: seq<PortRead>)
      requires n <= p.Length
      reads this, port, p
    {
      && port.script == rest
      && Model() == c.r
      && match c
         case Returned(_, bytes, failed) => p[..n] == bytes && status == if failed then PortFailed else Done
         case Waiting(_, held, _) => p[..n] == held && status == Blocked && rest == []
    }

    /** What remains of the call from the head of the inner loop on. */
    ghost function Remaining(p: array<Byte>, read: nat, expected: nat): (Call, seq<PortRead>)
      requires read <= p.Length && expected >= SMALLEST_RTU_SIZE && (last != [] ==> read == 0)
      reads this, port, p
    {
      Serve(Setting(p.Length), Head(Setting(p.Length), Model(), p[..read], expected), port.script)
    }

    /** Infers the size anew once the size inferred before is there. */
    method Infer(p: array<Byte>, read: nat, expected: nat) returns (expected': nat)
      requires read <= p.Length && SMALLEST_RTU_SIZE <= expected && last == []
      ensures expected' >= SMALLEST_RTU_SIZE
      ensures Remaining(p, read, expected') ==
              Serve(Setting(p.Length), After(Setting(p.Length), Model(), p[..read], expected), port.script)
    {
      AfterIsHead(Setting(p.Length), Model(), p[..read], expected);
      expected' := if read < expected then expected else ExpectedSize(mode, limits, p[..read], lastRtu);
    }

    lemma PollRemains(p: array<Byte>, read: nat, expected: nat)
      requires read <= p.Length && SMALLEST_RTU_SIZE <= expected && read < expected && last == [] && port.script != []
      ensures var cfg := Setting(p.Length);
              var (e, rest) := Deliver(port.script, p.Length - read);
              var o := Poll(cfg, Model(), p[..read], e);
              && (Weight(rest) < Weight(port.script) || (Weight(rest) == Weight(port.script) && e.data == [] && read == p.Length))
              && (o.Restarted? ==> Remaining(p, read, expected) == Serve(cfg, Head(cfg, o.r, [], SMALLEST_RTU_SIZE), rest))
              && (o.Ended? ==> o.c.Returned? && Remaining(p, read, expected) == Serve(cfg, o.c, rest))
              && (o.Grown? ==> o.r.last == [] && |o.held| <= p.Length)
              && (o.Grown? ==> Remaining(p, read, expected) == Serve(cfg, After(cfg, o.r, o.held, expected), rest))
    {
      PollServes(Setting(p.Length), Model(), p[..read], expected, port.script);
      DeliverLightens(port.script, p.Length - read);
    }

    /** The port is read, and what remains of the call afterwards. */
    method StepPort(p: array<Byte>, read: nat, expected: nat) returns (n: nat, progress: Progress, status: Status)
      requires read <= p.Length && SMALLEST_RTU_SIZE <= expected && read < expected && last == [] && port.script != []
      modifies this, port, p
      ensures n <= p.Length && (progress != Restart ==> last == [])
      ensures var (c, rest) := old(Remaining(p, read, expected));
              match progress
              case Stop => Ends(p, n, status, c, rest)
              case Restart => Remaining(p, 0, SMALLEST_RTU_SIZE) == (c, rest)
              case More =>
                Serve(Setting(p.Length), After(Setting(p.Length), Model(), p[..n], expected), port.script) == (c, rest)
      ensures progress != Stop ==>
        || Weight(port.script) < old(Weight(port.script))
        || (Weight(port.script) == old(Weight(port.script)) && last == [] && progress == Restart && read > 0)
    {
      PollRemains(p, read, expected);
      n, progress, status := PollPort(p, read);
      assert p[..0] == [];
    }

    /** The inner loop's body. */
    method Step(p: array<Byte>, read: nat, expected: nat)
      returns (read': nat, expected': nat, progress: Progress, status: Status)
      requires read <= p.Length && SMALLEST_RTU_SIZE <= expected && read < expected && (last != [] ==> read == 0)
      modifies this, port, p
      ensures read' <= p.Length && expected' >= SMALLEST_RTU_SIZE && (last != [] ==> read' == 0)
      ensures var (c, rest) := old(Remaining(p, read, expected));
              if progress == Stop then Ends(p, read', status, c, rest)
              else Remaining(p, read', expected') == (c, rest)
      ensures progress != Stop ==>
        || Weight(port.script) < old(Weight(port.script))
        || (Weight(port.script) == old(Weight(port.script)) && last == [] && (old(last) != [] || read' == 0 < read))
    {
      status, expected' := Done, expected;
      if last != [] {
        assert p[..read] == [];
        HeadCarriesOver(Setting(p.Length), Model(), expected);
        read' := CarryOver(p);
        progress := More;
      } else if port.script == [] {
        HeadWaits(Setting(p.Length), Model(), p[..read], expected);
        return read, expected, Stop, Blocked;
      } else {
        read', progress, status := StepPort(p, read, expected);
        if progress == Stop {
          return;
        }
        if progress == Restart {
          return 0, SMALLEST_RTU_SIZE, Restart, Done;
        }
      }
      expected' := Infer(p, read', expected);
    }

    /** The inner loop: reads until the packet is complete as far as its header tells, or the call ends. */
    method Fill(p: array<Byte>) returns (read: nat, expected: nat, progress: Progress, status: Status)
      modifies this, port, p
      ensures read <= p.Length
      ensures var (c, rest) := old(Remaining(p, 0, SMALLEST_RTU_SIZE));
              if progress == Stop then Ends(p, read, status, c, rest)
              else
                && SMALLEST_RTU_SIZE <= expected <= read && last == []
                && Remaining(p, read, expected) == (c, rest)
                && (Weight(port.script) < old(Weight(port.script))
                    || (Weight(port.script) == old(Weight(port.script)) && old(last) != []))
    {
      ghost var outcome := Remaining(p, 0, SMALLEST_RTU_SIZE);
      expected, read := SMALLEST_RTU_SIZE, 0;
      progress, status := More, Done;
      while read < expected
        invariant read <= p.Length && expected >= SMALLEST_RTU_SIZE && progress != Stop
        invariant last != [] ==> read == 0
        invariant Remaining(p, read, expected) == outcome
        invariant Weight(port.script) <= old(Weight(port.script))
        invariant Weight(port.script) == old(Weight(port.script)) ==> (old(last) == [] ==> last == [] && read == 0)
        decreases Weight(port.script), |last|, read
      {
        read, expected, progress, status := Step(p, read, expected);
        if progress == Stop {
          return;
        }
      }
      progress := More;
    }

    /** The call from its beginning on. */
    ghost function WholeCall(size: nat): (Call, seq<PortRead>)
      reads this, port
    {
      Serve(Setting(size), Begin(Setting(size), Model()), port.script)
    }

    /** Reads one packet into p. */
    method Read(p: array<Byte>) returns (n: nat, status: Status)
      modifies this, port, p
      ensures n <= p.Length
      ensures var (c, rest) := old(WholeCall(p.Length));
              Ends(p, n, status, c, rest)
    {
      ghost var outcome := WholeCall(p.Length);
      while true
        invariant WholeCall(p.Length) == outcome
        decreases Weight(port.script), |last|
      {
        assert p[..0] == [];
        stats := stats.(readPackets := stats.readPackets + 1);
        var read, expected, progress, s := Fill(p);
        if progress == Stop {
          return read, s;
        }
        HeadIsJudge(Setting(p.Length), Model(), p[..read], expected);
        var m, ok := CheckSum(p, read, expected);
        if ok {
          return m, Done;
        }
      }
    }
  }
}
