/** One transaction end to end: what one side builds, the other side takes apart. */
module Transactions {
  import opened Bytes
  import opened Modbus
  import opened Rtu
  import opened Data
  import opened Handler

  // ----- the parts of a request

  /** A request header can be made exactly for a supported code, 1..MaxPerPacket values, and a range within the address space. */
  lemma HeaderMade(f: Byte, address: Word, quantity: Word)
    ensures MakeRequestHeader(f, address, quantity).Ok? <==>
            Supported(f) && 1 <= quantity <= MaxPerPacket(f) && address + quantity <= MAX_RANGE
  {}

  lemma JoinHighLow(w: Word)
    ensures Join(High(w), Low(w)) == w
  {}

  lemma ByteCounts(f: Byte, quantity: Word)
    requires 1 <= quantity <= MaxPerPacket(f)
    ensures f == 15 ==> ((quantity + 7) / 8) % 256 == DataLength(f, quantity)
    ensures f == 16 ==> (quantity * 2) % 256 == DataLength(f, quantity)
  {}

  lemma HeaderBytes(f: Byte, address: Word, quantity: Word)
    requires MakeRequestHeader(f, address, quantity).Ok?
    ensures var h := MakeRequestHeader(f, address, quantity).value;
            && |h| == (if IsSingle(f) then 3 else if IsWriteToServer(f) then 6 else 5)
            && 1 <= quantity <= MaxPerPacket(f) && h[0] == f && h[1] == High(address) && h[2] == Low(address)
            && (!IsSingle(f) ==> h[3] == High(quantity) && h[4] == Low(quantity))
            && (f == 15 ==> h[5] == ((quantity + 7) / 8) % 256) && (f == 16 ==> h[5] == (quantity * 2) % 256)
  {}

  lemma FieldsOf(h: Pdu, f: Byte, address: Word, quantity: Word)
    requires |h| == (if IsSingle(f) then 3 else if IsWriteToServer(f) then 6 else 5) && h[0] == f
    requires 1 <= quantity <= MaxPerPacket(f) && h[1] == High(address) && h[2] == Low(address)
    requires !IsSingle(f) ==> h[3] == High(quantity) && h[4] == Low(quantity)
    ensures FunctionCode(h) == f && Address(h) == address && RequestCount(h) == Ok(quantity)
  {
    JoinHighLow(address);
    JoinHighLow(quantity);
  }

  /** The getters are the inverse of MakeRequestHeader. */
  lemma HeaderFields(f: Byte, address: Word, quantity: Word)
    requires MakeRequestHeader(f, address, quantity).Ok?
    ensures var h := MakeRequestHeader(f, address, quantity).value;
            && |h| == (if IsSingle(f) then 3 else if IsWriteToServer(f) then 6 else 5)
            && FunctionCode(h) == f && Address(h) == address && RequestCount(h) == Ok(quantity)
            && (f in {15, 16} ==> h[5] == DataLength(f, quantity))
  {
    HeaderBytes(f, address, quantity);
    ByteCounts(f, quantity);
    FieldsOf(MakeRequestHeader(f, address, quantity).value, f, address, quantity);
  }

  // ----- writing

  /** The request the client sends for the values v. */
  function WriteRequest(f: Byte, address: Word, v: Values): Result<Pdu>
    requires v.Length() <= MAX_RANGE
  {
    var header :- MakeRequestHeader(f, address, v.Length());
    var data :- Encode(f, v);
    HeaderFields(f, address, v.Length());
    Ok(MakeWriteRequest(header, data))
  }

  /** A write of values that fit: the code writes, the values are of its kind and number, the range exists. */
  ghost predicate Writable(f: Byte, address: Word, v: Values) {
    && f in {5, 6, 15, 16} && v.Registers? == IsUint16(f)
    && 1 <= v.Length() <= MaxPerPacket(f) && address + v.Length() <= MAX_RANGE
  }

  lemma WriteRequestFields(f: Byte, address: Word, v: Values)
    requires Writable(f, address, v)
    ensures var r := WriteRequest(f, address, v);
            && r.Ok? && Encode(f, v).Ok?
            && var p, data := r.value, Encode(f, v).value;
               && FunctionCode(p) == f && Address(p) == address && RequestCount(p) == Ok(v.Length())
               && |data| == DataLength(f, v.Length())
               && (if IsSingle(f) then |p| == 5 && p[3..] == data
                   else |p| == 6 + |data| && p[5] == |data| && p[6..] == data)
  {
    HeaderMade(f, address, v.Length());
    HeaderFields(f, address, v.Length());
    DecodeEncode(f, v);
  }

  lemma WriteRequestSize(limits: Limits, f: Byte, address: Word, v: Values)
    requires Writable(f, address, v)
    ensures var p := WriteRequest(f, address, v).value;
            && WriteRequest(f, address, v).Ok?
            && |p| <= MAX_PDU_SIZE && PduSize(limits, p, false) == |p|
  {
    WriteRequestFields(f, address, v);
    WritePduSize(limits, WriteRequest(f, address, v).value, v.Length());
  }

  lemma WritePduSize(limits: Limits, p: Pdu, n: nat)
    requires |p| >= 5 && p[0] in {5, 6, 15, 16} && 1 <= n <= MaxPerPacket(p[0])
    requires if IsSingle(p[0]) then |p| == 5
             else |p| == 6 + DataLength(p[0], n) && p[5] == DataLength(p[0], n) && Join(p[3], p[4]) == n
    ensures |p| <= MAX_PDU_SIZE && PduSize(limits, p, false) == |p|
  {
    assert p[0] % 128 == p[0];
  }

  /** How a server takes a write request apart, whoever made it. */
  lemma RequestTaken(limits: Limits, p: Pdu, v: Values, data: seq<Byte>, server: SimpleHandler)
    requires |p| >= 5 && FunctionCode(p) in {5, 6, 15, 16} && Takes(server, FunctionCode(p))
    requires Writable(FunctionCode(p), Address(p), v) && RequestCount(p) == Ok(v.Length())
    requires Encode(FunctionCode(p), v) == Ok(data)
    requires if IsSingle(FunctionCode(p)) then |p| == 5 && p[3..] == data
             else |p| == 6 + |data| && p[5] == |data| && p[6..] == data
    ensures ValidateRequest(p) == Ok(()) && data != []
    ensures RequestValues(limits.oversize, p) == Ok(data)
    ensures Delivery(server, p, data) == Ok((Address(p), v))
  {
    DecodeEncode(FunctionCode(p), v);
  }

  /** The reply to a write request is its first five bytes, and is recognised as such. */
  lemma WriteReplyFits(limits: Limits, p: Pdu)
    requires |p| >= 5 && FunctionCode(p) in {5, 6, 15, 16} && PduSize(limits, p, false) == |p|
    ensures MakeWriteReply(p) == p[..5] && IsRequestReply(limits, p, MakeWriteReply(p)) && MatchPdu(p, MakeWriteReply(p))
  {
    assert p[..5][..5] == p[..5];
    if |p| == 5 { assert p[..5] == p; }
  }

  /**
   End-to-end write. For every write code, every address and quantity in range and every list of values, the packet the
   client sends is accepted by the server, which hands exactly the same address and values to its handler; and its reply
   is the reply the client waits for. This holds with and without oversize support.
   */
  lemma WriteEndToEnd(limits: Limits, slaveId: Byte, f: Byte, address: Word, v: Values, server: SimpleHandler)
    requires Writable(f, address, v) && Takes(server, f)
    ensures WriteRequest(f, address, v).Ok? && Encode(f, v).Ok?
    ensures var request, data := WriteRequest(f, address, v).value, Encode(f, v).value;
            && GetPdu(MakeRtu(slaveId, request)) == Ok(request)
            && ValidateRequest(request) == Ok(())
            && RequestValues(limits.oversize, request) == Ok(data)
            && |request| >= 3 && data != []
            && Delivery(server, request, data) == Ok((address, v))
            && var reply := MakeWriteReply(request);
               && GetPdu(MakeRtu(slaveId, reply)) == Ok(reply)
               && IsRequestReply(limits, request, reply) && MatchPdu(request, reply)
  {
    WriteRequestFields(f, address, v);
    WriteRequestSize(limits, f, address, v);
    var request := WriteRequest(f, address, v).value;
    RequestTaken(limits, request, v, Encode(f, v).value, server);
    WriteReplyFits(limits, request);
    GetPduOfMakeRtu(slaveId, request);
    GetPduOfMakeRtu(slaveId, MakeWriteReply(request));
  }

  /** The client gets the values it writes from its own handler; this is what it sends. */
  lemma ClientWrites(client: SimpleHandler, f: Byte, address: Word, quantity: Word)
    requires f in {5, 6, 15, 16} && MakeRequestHeader(f, address, quantity).Ok?
    requires Fetch(client, f, address, quantity).Ok?
    ensures var header := MakeRequestHeader(f, address, quantity).value;
            var v := Fetch(client, f, address, quantity).value;
            && Writable(f, address, v)
            && |header| >= 3 && OnRead(client, header).Ok?
            && (f in {15, 16} ==> |header| >= 6)
            && FunctionCode(header) == f
            && Ok(MakeWriteRequest(header, OnRead(client, header).value)) == WriteRequest(f, address, v)
  {
    HeaderMade(f, address, quantity);
    HeaderFields(f, address, quantity);
    DecodeEncode(f, Fetch(client, f, address, quantity).value);
  }

  // ----- reading

  /** A read request, as far as its reply depends on it. */
  ghost predicate IsReadRequest(p: Pdu, f: Byte, quantity: Word) {
    |p| == 5 && FunctionCode(p) == f && 1 <= f <= 4 && RequestCount(p) == Ok(quantity) && 1 <= quantity <= MaxPerPacket(f)
  }

  lemma HeaderIsReadRequest(f: Byte, address: Word, quantity: Word)
    requires 1 <= f <= 4 && MakeRequestHeader(f, address, quantity).Ok?
    ensures IsReadRequest(MakeRequestHeader(f, address, quantity).value, f, quantity)
    ensures Address(MakeRequestHeader(f, address, quantity).value) == address
  {
    HeaderMade(f, address, quantity);
    HeaderFields(f, address, quantity);
  }

  /** The reply that carries `data` is recognised as the answer to its request. */
  lemma ReadReplyFits(limits: Limits, request: Pdu, f: Byte, quantity: Word, data: seq<Byte>)
    requires IsReadRequest(request, f, quantity) && |data| == DataLength(f, quantity)
    ensures var reply := MakeReadReply(request, data);
            && 0 < |data| <= 250 && ReplyValues(reply) == Ok(data) && |reply| >= 2
            && IsRequestReply(limits, request, reply) && MatchPdu(request, reply)
  {
    ReadLength(f, quantity);
    ReadReplySize(limits, request, data);
    var reply := MakeReadReply(request, data);
    assert reply[1] == |data| && reply[2..] == data;
  }

  lemma ReadLength(f: Byte, quantity: Word)
    requires 1 <= f <= 4 && 1 <= quantity <= MaxPerPacket(f)
    ensures 0 < DataLength(f, quantity) <= 250
    ensures IsUint16(f) ==> (quantity * 2 % 0x1_0000) % 256 == DataLength(f, quantity)
    ensures !IsUint16(f) ==> ((quantity + 7) % 0x1_0000 / 8) % 256 == DataLength(f, quantity)
  {}

  /**
   End-to-end read. For every request the library makes and a server handler with enough values, the reply is the one the
   client waits for, and the client hands its handler the address and exactly the first `quantity` values.
   */
  lemma ReadEndToEnd(limits: Limits, slaveId: Byte, f: Byte, address: Word, quantity: Word, server: SimpleHandler, client: SimpleHandler)
    requires 1 <= f <= 4 && MakeRequestHeader(f, address, quantity).Ok?
    requires Fetch(server, f, address, quantity).Ok? && Takes(client, f)
    ensures var request := MakeRequestHeader(f, address, quantity).value;
            && GetPdu(MakeRtu(slaveId, request)) == Ok(request) && ValidateRequest(request) == Ok(())
            && OnRead(server, request).Ok?
            && var data := OnRead(server, request).value;
               var reply := MakeReadReply(request, data);
               && GetPdu(MakeRtu(slaveId, reply)) == Ok(reply)
               && IsRequestReply(limits, request, reply) && MatchPdu(request, reply)
               && ReplyValues(reply) == Ok(data) && data != []
               && Delivery(client, request, data) == Ok((address, Fetch(server, f, address, quantity).value))
  {
    HeaderIsReadRequest(f, address, quantity);
    var request, v := MakeRequestHeader(f, address, quantity).value, Fetch(server, f, address, quantity).value;
    DecodeEncode(f, v);
    assert OnRead(server, request) == Encode(f, v);
    var data := Encode(f, v).value;
    ReadReplyFits(limits, request, f, quantity, data);
    GetPduOfMakeRtu(slaveId, request);
    GetPduOfMakeRtu(slaveId, MakeReadReply(request, data));
  }

  /**
   The server does not bound the count of a read request. Exactly when its reply still states its own length, and so is
   recognised as a reply: up to 127 registers or 2040 bools.
   */
  lemma UnboundedReadReply(limits: Limits, request: Pdu, count: Word, data: seq<Byte>)
    requires |request| == 5 && 1 <= FunctionCode(request) <= 4 && RequestCount(request) == Ok(count)
    requires |data| == DataLength(FunctionCode(request), count)
    ensures IsRequestReply(limits, request, MakeReadReply(request, data)) <==>
            count <= if IsUint16(FunctionCode(request)) then 127 else 2040
  {
    LengthByte(FunctionCode(request), count);
    ReadReplySize(limits, request, data);
    var reply := MakeReadReply(request, data);
    if |data| < 256 {
      assert reply[1] == |data|;
    }
  }

  lemma DoubleByte(count: Word)
    ensures (count * 2 % 0x1_0000) % 256 == 2 * (count % 128)
  {
    var q, r := count / 128, count % 128;
    assert count * 2 == 256 * q + 2 * r;
  }

  lemma BytesOfRegisters(count: Word)
    requires count <= 127
    ensures (count * 2 % 0x1_0000) % 256 == 2 * count
  {
    DoubleByte(count);
    assert count % 128 == count;
  }

  lemma LengthByte(f: Byte, count: Word)
    requires 1 <= f <= 4
    ensures DataLength(f, count) < 256 <==> count <= if IsUint16(f) then 127 else 2040
    ensures DataLength(f, count) < 256 && IsUint16(f) ==> (count * 2 % 0x1_0000) % 256 == DataLength(f, count)
    ensures DataLength(f, count) < 256 && !IsUint16(f) ==> ((count + 7) % 0x1_0000 / 8) % 256 == DataLength(f, count)
  {
    if IsUint16(f) {
      if count <= 127 { BytesOfRegisters(count); }
    } else {
      BytesOfBools(count);
    }
  }

  lemma BytesOfBools(count: Word)
    ensures (count + 7) / 8 < 256 <==> count <= 2040
    ensures count <= 2040 ==> ((count + 7) % 0x1_0000 / 8) % 256 == (count + 7) / 8
  {
    if count <= 2040 { assert (count + 7) % 0x1_0000 == count + 7; }
  }

  lemma ReadReplySize(limits: Limits, request: Pdu, data: seq<Byte>)
    requires |request| == 5 && 1 <= FunctionCode(request) <= 4
    ensures var reply := MakeReadReply(request, data);
            && PduSize(limits, request, false) == 5 && FunctionCode(reply) == FunctionCode(request)
            && (PduSize(limits, reply, true) == |reply| <==> |data| < 256)
  {}

  /** What a callback's values become: exactly the first `count` of them, or a device failure if there are fewer. */
  lemma CallIsPrefix<T>(source: Source<T>, address: Word, count: Word)
    requires source.Some?
    ensures var all := source.value(address, count);
            Call(source, address, count) ==
              if all.Err? then Err(all.error)
              else if |all.value| < count then Err(Exception(SERVER_DEVICE_FAILURE))
              else Ok(all.value[..count])
  {
    var all := source.value(address, count);
    if all.Ok? && |all.value| == count { assert all.value[..count] == all.value; }
  }

  /** A failing handler makes the server answer with an exception that matches the request and carries the code. */
  lemma ExceptionEndToEnd(slaveId: Byte, request: Pdu, error: Failure)
    requires Supported(FunctionCode(request))
    ensures var reply := ExceptionReply(request, ToExceptionCode(error));
            && GetPdu(MakeRtu(slaveId, reply)) == Ok(reply)
            && MatchPdu(request, reply)
            && IsError(FunctionCode(reply)) && WithoutError(FunctionCode(reply)) == FunctionCode(request)
            && reply[1] == ToExceptionCode(error)
  {
    GetPduOfMakeRtu(slaveId, ExceptionReply(request, ToExceptionCode(error)));
  }

  lemma AcceptedLength(limits: Limits, request: Pdu, f: Byte, quantity: Word, reply: Pdu)
    requires IsReadRequest(request, f, quantity) && IsRequestReply(limits, request, reply)
    ensures |reply| == 2 + DataLength(f, quantity) && DataLength(f, quantity) > 0 && ReplyValues(reply) == Ok(reply[2..])
  {
    ReadLength(f, quantity);
  }

  /** Any reply the client accepts for a read request of its own decodes to exactly the number of values asked for. */
  lemma AcceptedReplyDecodes(limits: Limits, f: Byte, address: Word, quantity: Word, reply: Pdu, client: SimpleHandler)
    requires 1 <= f <= 4 && MakeRequestHeader(f, address, quantity).Ok? && Takes(client, f)
    requires IsRequestReply(limits, MakeRequestHeader(f, address, quantity).value, reply)
    ensures var request := MakeRequestHeader(f, address, quantity).value;
            && ReplyValues(reply).Ok? && |request| >= 3 && ReplyValues(reply).value != []
            && var d := Delivery(client, request, ReplyValues(reply).value);
               d.Ok? && d.value.0 == address && d.value.1.Length() == quantity
  {
    HeaderIsReadRequest(f, address, quantity);
    AcceptedLength(limits, MakeRequestHeader(f, address, quantity).value, f, quantity, reply);
    DecodesAll(f, quantity, reply[2..]);
  }

  /** Data of the right length decodes, whatever its bytes are. */
  lemma DecodesAll(f: Byte, quantity: Word, data: seq<Byte>)
    requires 1 <= f <= 4 && 1 <= quantity <= MaxPerPacket(f) && |data| == DataLength(f, quantity)
    ensures Decode(f, quantity, data).Ok? && Decode(f, quantity, data).value.Length() == quantity
  {
    if !IsUint16(f) { CoilBytes(quantity); }
  }

  /** The values that a reply gives the client's handler. */
  function Given(client: SimpleHandler, request: Pdu, reply: Pdu): Result<Values>
    requires |request| >= 3
  {
    ValuesAreThere(false, reply);
    var data :- ReplyValues(reply);
    var d :- Delivery(client, request, data);
    Ok(d.1)
  }

  /** How many bytes of values a reply carries that is accepted for a count: the length byte wraps around. */
  lemma AcceptedBytes(limits: Limits, request: Pdu, count: Word, reply: Pdu)
    requires 1 <= FunctionCode(request) <= 4 && RequestCount(request) == Ok(count) && IsRequestReply(limits, request, reply)
    ensures |request| == 5 && |reply| >= 2
    ensures |reply| - 2 == if IsUint16(FunctionCode(request)) then 2 * (count % 128) else (count + 7) % 0x1_0000 / 8 % 256
    ensures ReplyValues(reply) == if |reply| == 2 then Err(Other) else Ok(reply[2..])
  {
    assert (count * 2 % 0x1_0000) % 256 == 2 * (count % 128) by { DoubleByte(count); }
  }

  lemma CoilsFit(count: Word, data: seq<Byte>)
    requires |data| == (count + 7) % 0x1_0000 / 8 % 256
    ensures data != [] && LengthFits(data, count) <==> 1 <= count <= 2040
  {
    if count <= 65528 { assert (count + 7) % 0x1_0000 == count + 7; } else { assert (count + 7) % 0x1_0000 == count - 65529; }
  }

  lemma GivenRegisters(client: SimpleHandler, request: Pdu, count: Word, data: seq<Byte>)
    requires |request| >= 3 && RequestCount(request) == Ok(count) && FunctionCode(request) in {3, 4}
    requires Takes(client, FunctionCode(request)) && |data| == 2 * (count % 128) && data != []
    ensures Delivery(client, request, data).Ok? && Delivery(client, request, data).value.1.Length() == count % 128
  {}

  lemma GivenCoils(client: SimpleHandler, request: Pdu, count: Word, data: seq<Byte>)
    requires |request| >= 3 && RequestCount(request) == Ok(count) && FunctionCode(request) in {1, 2}
    requires Takes(client, FunctionCode(request)) && data != []
    ensures var d := Delivery(client, request, data);
            d.Ok? && d.value.1.Length() == count <==> LengthFits(data, count)
  {}

  /**
   IsRequestReply compares one byte. Exactly for which counts a reply that it accepts for a read request, whoever made it,
   gives the handler the number of values asked for; and how many registers it gives otherwise.
   */
  lemma AcceptedCountIff(limits: Limits, request: Pdu, count: Word, reply: Pdu, client: SimpleHandler)
    requires 1 <= FunctionCode(request) <= 4 && RequestCount(request) == Ok(count) && IsRequestReply(limits, request, reply)
    requires Takes(client, FunctionCode(request))
    ensures |request| == 5
    ensures var v, f := Given(client, request, reply), FunctionCode(request);
            && (v.Ok? && v.value.Length() == count <==> 1 <= count <= if IsUint16(f) then 127 else 2040)
            && (IsUint16(f) ==> (v.Ok? <==> count % 128 != 0) && (v.Ok? ==> v.value.Length() == count % 128))
  {
    AcceptedBytes(limits, request, count, reply);
    if IsUint16(FunctionCode(request)) {
      if |reply| > 2 { GivenRegisters(client, request, count, reply[2..]); }
    } else {
      CoilsFit(count, reply[2..]);
      if |reply| > 2 { GivenCoils(client, request, count, reply[2..]); }
    }
  }

  /** A request for 129 registers accepts a reply with one. */
  lemma OneRegisterAccepted(limits: Limits)
    ensures RequestCount([3, 0, 0, 0, 129]) == Ok(129) && IsRequestReply(limits, [3, 0, 0, 0, 129], [3, 2, 0, 7])
  {}
}
