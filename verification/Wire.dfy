/** Frames between the loops and the readers: what MakeRTU builds is what the reader on the other side cuts out of the bytes. */
module Wire {
  import opened Bytes
  import opened Modbus
  import opened RtuSize
  import opened Rtu
  import opened ReaderModel
  import opened ReaderFraming
  import opened LoneFrame
  import Transactions
  import Handler
  import Crc

  /**
   A packet is a well-formed frame for a reader exactly if its PDU has the length its own header announces in the
   reader's direction. Broadcasts are read as requests in both.
   */
  lemma FrameWhen(limits: Limits, isClient: bool, id: Byte, p: Pdu)
    ensures IsFrame(limits, isClient, MakeRtu(id, p)) <==> PduSize(limits, p, isClient && id != 0) == |p|
  {
    var r := MakeRtu(id, p);
    GetPduOfMakeRtu(id, p);
    Crc.SumIsValid([id] + p);
    assert r[1..][..|p|] == p;
    PduSizeStable(limits, p, r[1..], isClient && id != 0);
  }

  /** Both packets of a request and its reply are frames, each for the reader it is sent to. */
  lemma ExchangeFramed(limits: Limits, id: Byte, request: Pdu, reply: Pdu)
    requires IsRequestReply(limits, request, reply)
    ensures IsFrame(limits, false, MakeRtu(id, request)) && (id != 0 ==> IsFrame(limits, true, MakeRtu(id, reply)))
  {
    FrameWhen(limits, false, id, request);
    FrameWhen(limits, true, id, reply);
  }

  /** So is every exception. */
  lemma ExceptionFramed(limits: Limits, id: Byte, p: Pdu, code: Byte)
    requires id != 0
    ensures IsFrame(limits, true, MakeRtu(id, ExceptionReply(p, code)))
  {
    FrameWhen(limits, true, id, ExceptionReply(p, code));
  }

  /** The packets for a list of PDUs, each with the id it goes to or comes from. */
  function Frames(messages: seq<(Byte, Pdu)>): seq<Packet> {
    seq(|messages|, i requires 0 <= i < |messages| => MakeRtu(messages[i].0, messages[i].1))
  }

  /**
   Whatever PDUs of announced length are sent as packets, one after the other, the reader of the other side returns exactly
   these packets, however the bytes are cut up on the way, with nothing dropped and nothing left.
   */
  lemma MessagesArrive(limits: Limits, isClient: bool, cutoff: nat -> int, size: nat, at: int,
      messages: seq<(Byte, Pdu)>, events: seq<PortRead>)
    requires forall i :: 0 <= i < |messages| ==>
               PduSize(limits, messages[i].1, isClient && messages[i].0 != 0) == |messages[i].1|
    requires Data(events) == Flatten(Frames(messages))
    requires Gentle(RtuReader(OneWay(isClient), limits, cutoff, size), Frames(messages), [], at, events)
    ensures var cfg := RtuReader(OneWay(isClient), limits, cutoff, size);
            && Fits(cfg, Fresh(cfg, at), events)
            && var w := Run(cfg, Fresh(cfg, at), events);
               w.r.log == Packets(Frames(messages)) && w.held == [] && w.r.stats.otherDrops == w.r.stats.crcErrors == 0
  {
    var fs := Frames(messages);
    forall i | 0 <= i < |fs|
      ensures IsFrame(limits, isClient, fs[i]) && |fs[i]| > 0
    {
      FrameWhen(limits, isClient, messages[i].0, messages[i].1);
    }
    Framing(OneWay(isClient), limits, cutoff, size, at, fs, events);
    WholeOfAll(fs);
    assert fs[..|fs|] == fs;
  }

  /** All of the frames are whole in all of their bytes. */
  lemma {:induction false} WholeOfAll(fs: seq<seq<Byte>>)
    requires forall i :: 0 <= i < |fs| ==> |fs[i]| > 0
    ensures Whole(fs, |Flatten(fs)|) == |fs|
    decreases |fs|
  {
    if fs != [] { WholeOfAll(fs[1..]); }
  }

  // ----- the client's buffer

  /** A reply to a read request fits the client's buffer exactly up to 125 registers or 2008 bools. */
  lemma ReadReplyLength(id: Byte, request: Pdu, count: Word, data: seq<Byte>)
    requires 1 <= FunctionCode(request) <= 4 && |data| == Handler.DataLength(FunctionCode(request), count)
    ensures |MakeRtu(id, MakeReadReply(request, data))| <= MAX_RTU_SIZE <==>
            count <= if IsUint16(FunctionCode(request)) then 125 else 2008
  {
    GetPduOfMakeRtu(id, MakeReadReply(request, data));
  }

  /**
   The server does not bound the count of a read request, and the client always reads into 256 bytes: its reader returns
   the reply exactly up to 125 registers or 2008 bools, with oversize support or without, however the bytes are cut up.
   Beyond, the bytes are returned or dropped in pieces.
   */
  lemma ReadReplyArrivesIff(limits: Limits, cutoff: nat -> int, at: int, id: Byte, request: Pdu, count: Word, data: seq<Byte>,
      events: seq<PortRead>)
    requires id != 0 && |request| == 5 && 1 <= FunctionCode(request) <= 4 && RequestCount(request) == Ok(count)
    requires |data| == Handler.DataLength(FunctionCode(request), count)
    requires var cfg := RtuReader(OneWay(true), limits, cutoff, MAX_RTU_SIZE);
             Brings(cfg, MakeRtu(id, MakeReadReply(request, data)), events) && Fits(cfg, Fresh(cfg, at), events)
    ensures var cfg, f := RtuReader(OneWay(true), limits, cutoff, MAX_RTU_SIZE), MakeRtu(id, MakeReadReply(request, data));
            var log := Run(cfg, Fresh(cfg, at), events).r.log;
            (exists i :: 0 <= i < |log| && log[i].bytes == f) <==>
              count <= if IsUint16(FunctionCode(request)) then 125 else 2008
  {
    var cfg, f := RtuReader(OneWay(true), limits, cutoff, MAX_RTU_SIZE), MakeRtu(id, MakeReadReply(request, data));
    ReadReplyLength(id, request, count, data);
    FreshIsReady(cfg, at);
    var log := Run(cfg, Fresh(cfg, at), events).r.log;
    if |f| <= MAX_RTU_SIZE {
      GetPduOfMakeRtu(id, MakeReadReply(request, data));
      Transactions.ReadReplySize(limits, request, data);
      FrameWhen(limits, true, id, MakeReadReply(request, data));
      FramesAreFramed(OneWay(true), limits, cutoff, MAX_RTU_SIZE, f);
      OneFrameArrives(cfg, Fresh(cfg, at), f, events);
      assert log[0].bytes == f;
    } else {
      forall i | 0 <= i < |log|
        ensures log[i].bytes != f
      {
        LongFrameNeverArrives(cfg, Fresh(cfg, at), events, f, i);
      }
    }
  }
}
