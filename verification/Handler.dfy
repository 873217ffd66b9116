/** SimpleHandler: from requests to typed callbacks and back (simple_handler.go). */
module Handler {
  import opened Bytes
  import opened Modbus
  import opened Data

  type Source<T> = Option<(Word, Word) -> Result<seq<T>>>
  type Sink<!T> = Option<(Word, seq<T>) -> Result<()>>

  datatype SimpleHandler = SimpleHandler(
    readDiscreteInputs: Source<bool>, writeDiscreteInputs: Sink<bool>,
    readCoils: Source<bool>, writeCoils: Sink<bool>,
    readInputRegisters: Source<Word>, writeInputRegisters: Sink<Word>,
    readHoldingRegisters: Source<Word>, writeHoldingRegisters: Sink<Word>)

  datatype Values = Coils(bools: seq<bool>) | Registers(words: seq<Word>) {
    function Length(): nat { match this case Coils(b) => |b| case Registers(w) => |w| }
  }

  /** The first `count` values; too few are a device failure. */
  function CheckValues<T>(values: Result<seq<T>>, count: Word): (r: Result<seq<T>>)
    ensures r.Ok? <==> values.Ok? && count <= |values.value|
    ensures r.Ok? ==> |r.value| == count && r.value <= values.value
    ensures r.Err? ==> r.error == if values.Err? then values.error else Exception(SERVER_DEVICE_FAILURE)
  {
    var v :- values;
    if |v| > count then Ok(v[..count])
    else if |v| < count then Err(Exception(SERVER_DEVICE_FAILURE))
    else Ok(v)
  }

  function Call<T>(source: Source<T>, address: Word, count: Word): Result<seq<T>> {
    if source.None? then Err(NotSupported) else CheckValues(source.value(address, count), count)
  }

  /** The values the handler has for code f. */
  function Fetch(h: SimpleHandler, f: Byte, address: Word, count: Word): (r: Result<Values>)
    ensures r.Ok? ==> r.value.Length() == count && r.value.Registers? == IsUint16(f)
  {
    match f
    case 2 => var v :- Call(h.readDiscreteInputs, address, count); Ok(Coils(v))
    case 1 | 5 | 15 => var v :- Call(h.readCoils, address, count); Ok(Coils(v))
    case 4 => var v :- Call(h.readInputRegisters, address, count); Ok(Registers(v))
    case 3 | 6 | 16 => var v :- Call(h.readHoldingRegisters, address, count); Ok(Registers(v))
    case _ => Err(NotSupported)
  }

  function Encode(f: Byte, v: Values): Result<seq<Byte>> {
    match v
    case Coils(bools) => BoolsToDataSpec(bools, f)
    case Registers(words) => Ok(PackRegisters(words))
  }

  function OnRead(h: SimpleHandler, req: Pdu): Result<seq<Byte>>
    requires |req| >= 3
  {
    var count :- RequestCount(req);
    var v :- Fetch(h, FunctionCode(req), Address(req), count);
    Encode(FunctionCode(req), v)
  }

  /** Whether the handler takes values of code f. */
  predicate Takes(h: SimpleHandler, f: Byte) {
    match f
    case 2 => h.writeDiscreteInputs.Some?
    case 1 | 5 | 15 => h.writeCoils.Some?
    case 4 => h.writeInputRegisters.Some?
    case 3 | 6 | 16 => h.writeHoldingRegisters.Some?
    case _ => false
  }

  function Decode(f: Byte, count: Word, data: seq<Byte>): Result<Values>
    requires IsUint16(f) || !Overruns(data, count, f)
  {
    if IsUint16(f) then var w :- DataToRegistersSpec(data); Ok(Registers(w))
    else var b :- DataToBoolsSpec(data, count, f); Ok(Coils(b))
  }

  /** What OnWrite hands to the callback: an address and values. */
  function Delivery(h: SimpleHandler, req: Pdu, data: seq<Byte>): Result<(Word, Values)>
    requires |req| >= 3
    requires RequestCount(req).Ok? && RequestCount(req).value > 65528 ==> data != []
  {
    var count :- RequestCount(req);
    if !Takes(h, FunctionCode(req)) then Err(NotSupported)
    else
      var v :- Decode(FunctionCode(req), count, data);
      Ok((Address(req), v))
  }

  function OnWrite(h: SimpleHandler, req: Pdu, data: seq<Byte>): Result<()>
    requires |req| >= 3
    requires RequestCount(req).Ok? && RequestCount(req).value > 65528 ==> data != []
  {
    var d :- Delivery(h, req, data);
    var f := FunctionCode(req);
    if d.1.Coils? then
      if f == 2 then h.writeDiscreteInputs.value(d.0, d.1.bools) else h.writeCoils.value(d.0, d.1.bools)
    else
      if f == 4 then h.writeInputRegisters.value(d.0, d.1.words) else h.writeHoldingRegisters.value(d.0, d.1.words)
  }

  /** How many bytes of data q values of code f are. */
  function DataLength(f: Byte, q: nat): nat {
    if IsSingle(f) then 2 else if IsUint16(f) then 2 * q else (q + 7) / 8
  }

  /** The data a handler has for a read request. */
  lemma OnReadLength(h: SimpleHandler, req: Pdu, count: Word)
    requires |req| >= 3 && 1 <= FunctionCode(req) <= 4 && RequestCount(req) == Ok(count) && OnRead(h, req).Ok?
    ensures |OnRead(h, req).value| == DataLength(FunctionCode(req), count)
  {}

  /** Encoding then decoding gives the values back, for every code and every number of values a packet may carry. */
  lemma DecodeEncode(f: Byte, v: Values)
    requires Supported(f) && 1 <= v.Length() <= MaxPerPacket(f) && v.Registers? == IsUint16(f)
    ensures var data := Encode(f, v);
            && data.Ok? && |data.value| == DataLength(f, v.Length()) > 0
            && Decode(f, v.Length(), data.value) == Ok(v)
  {
    match v
    case Coils(bools) =>
      if f == WRITE_SINGLE_COIL { SingleCoilRoundTrip(bools); } else { CoilsRoundTrip(bools, f); }
    case Registers(words) =>
      UnpackPackRegisters(words);
  }

  lemma SingleCoilRoundTrip(bools: seq<bool>)
    requires |bools| == 1
    ensures var data := BoolsToDataSpec(bools, WRITE_SINGLE_COIL);
            data.Ok? && |data.value| == 2 && DataToBoolsSpec(data.value, 1, WRITE_SINGLE_COIL) == Ok(bools)
  {
    assert bools == [bools[0]];
  }

  lemma CoilsRoundTrip(bools: seq<bool>, f: Byte)
    requires f != WRITE_SINGLE_COIL && 1 <= |bools| <= 2000
    ensures BoolsToDataSpec(bools, f) == Ok(PackBits(bools))
    ensures |PackBits(bools)| == (|bools| + 7) / 8 > 0
    ensures DataToBoolsSpec(PackBits(bools), |bools|, f) == Ok(bools)
  {
    CoilBytes(|bools|);
    assert UnpackBits(PackBits(bools))[..|bools|] == bools by { UnpackPack(bools); }
  }

  lemma CoilBytes(n: nat)
    requires 1 <= n <= 2000
    ensures 0 < (n + 7) / 8 && (n + 7) % 0x1_0000 / 8 == (n + 7) / 8 % 0x1_0000
  {}
}
