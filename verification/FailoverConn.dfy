/** The failover connection as the object it is: fields changed under a lock (failover.go). */
module FailoverConn {
  import opened Modbus
  import opened Rtu
  import opened Failover

  class FailoverSerialConn {
    const settings: Settings
    var isActive: bool
    var requestTime: Option<int>
    var reqPacket: Pdu
    var lastRead: Option<int>
    var startTime: int
    var misses: nat
    ghost var sleeping: multiset<Packet>
    ghost var trace: seq<Note>

    constructor (settings: Settings, now: int)
      ensures this.settings == settings && Model() == NewConn(now)
    {
      this.settings := settings;
      isActive, requestTime, reqPacket, lastRead, startTime, misses := false, None, [], None, now, 0;
      sleeping, trace := multiset{}, [];
    }

    /** The fields as a value. */
    ghost function Model(): Conn
      reads this
    {
      Conn(isActive, requestTime, reqPacket, lastRead, startTime, misses, sleeping, trace)
    }

    method ResetRequestTime()
      modifies this
      ensures Model() == old(Model()).ResetRequestTime()
    {
      requestTime := None;
      reqPacket := [];
    }

    method SetLastReqTime(pdu: Pdu, now: int)
      modifies this
      ensures Model() == old(Model()).SetLastReqTime(pdu, now)
    {
      requestTime := Some(now);
      reqPacket := pdu;
    }

    method IncMisses(pdu: Pdu, now: int)
      modifies this
      ensures Model() == Failover.IncMisses(settings, old(Model()), pdu, now)
    {
      misses := misses + 1;
      trace := trace + [Miss];
      if misses > settings.missesMax {
        isActive := true;
        trace := trace + [Activated(false)];
      } else {
        SetLastReqTime(pdu, now);
      }
    }

    /** What a primary server does first with a packet: it may take over again, or give up. */
    method PrimaryServerTurn(now: int)
      modifies this
      ensures Model() == Failover.PrimaryTurn(settings, old(Model()), now)
    {
      if !isActive {
        if startTime + settings.primaryForceBackDelay < now {
          isActive := true;
          trace := trace + [Activated(true)];
        }
      }
      if isActive {
        if Before(lastRead, settings.primaryDisconnectDelay, now) {
          isActive := false;
          startTime := now;
          trace := trace + [Deactivated];
        }
      }
    }

    /** One turn of the loop of serverRead, from taking the lock to releasing it. */
    method ServerRead(rtu: Packet, now: int) returns (v: Verdict)
      modifies this
      ensures (Model(), v) == ServerPacket(settings, old(Model()), rtu, now)
    {
      if !settings.isFailover {
        PrimaryServerTurn(now);
        if isActive { return Forwarded; }
      }
      var p := GetPdu(rtu);
      if p.Err? {
        misses := 0;
        trace := trace + [Reset];
        return Discarded;
      }
      var pdu := p.value;
      if rtu[0] == 0 {
        ResetRequestTime();
        return Forwarded;
      }
      if isActive {
        assert settings.isFailover;
        if requestTime.None? {
          SetLastReqTime(pdu, now);
          return Forwarded;
        }
        isActive := false;
        misses := 0;
        trace := trace + [Deactivated, Reset];
        assert trace == old(trace) + [Deactivated] + [Reset];
        ResetRequestTime();
        return Discarded;
      }
      if requestTime.None? {
        SetLastReqTime(pdu, now);
        return Forwarded;
      }
      if now - requestTime.value > settings.missDelay + settings.bytesDelay(|rtu|) {
        IncMisses(pdu, now);
        return Forwarded;
      }
      if IsRequestReply(settings.limits, reqPacket, pdu) {
        ResetRequestTime();
        misses := 0;
        trace := trace + [Reset];
        return Discarded;
      }
      SetLastReqTime(pdu, now);
      IncMisses(pdu, now);
      return Forwarded;
    }

    /** clientRead, after the packet reader returned a packet. */
    method ClientRead(rtu: Packet, now: int) returns (v: Verdict)
      modifies this
      ensures (Model(), v) == ClientPacket(settings, old(Model()), rtu, now)
    {
      var p := GetPdu(rtu);
      if p.Err? {
        v := Failed(p.error);
      } else {
        var isReply := requestTime.Some? && now - requestTime.value < settings.missDelay + settings.bytesDelay(|rtu|)
          && IsRequestReply(settings.limits, reqPacket, p.value);
        if !isReply {
          SetLastReqTime(p.value, now);
          if settings.isFailover && isActive {
            isActive := false;
            trace := trace + [Deactivated];
          }
        } else {
          ResetRequestTime();
        }
        v := Forwarded;
      }
      misses := 0;
      trace := trace + [Reset];
    }

    /** The end of Read. */
    method ReadReturns(now: int)
      modifies this
      ensures Model() == Step(settings, old(Model()), ReadDone(now))
    {
      lastRead := Some(now);
    }

    /** The start of a client's Write: a primary may give up or take over again. */
    method PrimaryClientTurn(now: int)
      modifies this
      ensures Model() == ClientTurn(settings, old(Model()), now)
    {
      if !settings.isFailover {
        if isActive {
          if Before(lastRead, settings.primaryDisconnectDelay, now) {
            isActive := false;
            trace := trace + [Deactivated];
          }
        }
        if !isActive && startTime + settings.primaryForceBackDelay < now {
          isActive := true;
          startTime := now;
          trace := trace + [Activated(true)];
        }
      }
    }

    /** A client's Write; `sent` says whether the frame goes to the wire. */
    method ClientWrite(frame: Packet, now: int) returns (sent: bool)
      requires |frame| >= 3
      modifies this
      ensures Model() == Failover.ClientWrite(settings, old(Model()), frame, now)
      ensures sent == isActive
    {
      PrimaryClientTurn(now);
      if !isActive {
        if misses >= settings.missesMax {
          isActive := true;
          trace := trace + [Activated(false)];
        } else {
          misses := misses + 1;
          trace := trace + [Miss];
        }
      }
      if isActive {
        SetLastReqTime(FastPdu(frame), now);
        trace := trace + [Sent(frame)];
        return true;
      }
      trace := trace + [Suppressed];
      return false;
    }

    /** A server's Write up to releasing the lock; a failover that is active has to wait before it may send. */
    method ServerWriteStart(frame: Packet) returns (sent: bool, wait: bool)
      modifies this
      ensures Model() == ServerWrite(settings, old(Model()), frame)
      ensures sent == (old(isActive) && !settings.isFailover) && wait == (old(isActive) && settings.isFailover)
    {
      if !isActive {
        trace := trace + [Suppressed];
        return false, false;
      }
      if settings.isFailover {
        sleeping := sleeping + multiset{frame};
        return false, true;
      }
      ResetRequestTime();
      trace := trace + [Sent(frame)];
      return true, false;
    }

    /** The rest of a failover server's Write, after the delay. */
    method ServerWriteEnd(frame: Packet) returns (sent: bool)
      requires frame in sleeping
      modifies this
      ensures Model() == ServerWakes(old(Model()), frame)
      ensures sent == old(isActive)
    {
      sleeping := sleeping - multiset{frame};
      if !isActive {
        trace := trace + [Suppressed];
        return false;
      }
      ResetRequestTime();
      trace := trace + [Sent(frame)];
      return true;
    }
  }
}
