/** The data part of PDUs (data.go): bools packed eight to a byte, registers as two bytes each. */
module Data {
  import opened Bytes
  import opened Modbus

  // ----- bits of a byte

  function Pow2(n: nat): nat { if n == 0 then 1 else 2 * Pow2(n - 1) }

  /** Bit j of b, counted from the least significant. */
  predicate Bit(b: nat, j: nat) { if j == 0 then b % 2 == 1 else Bit(b / 2, j - 1) }

  /** b | 1 << k */
  function SetBit(b: nat, k: nat): nat { if Bit(b, k) then b else b + Pow2(k) }

  /** The number whose bits are given, least significant first. */
  function Number(bits: seq<bool>): (n: nat)
    ensures n < Pow2(|bits|)
  {
    if bits == [] then 0 else (if bits[0] then 1 else 0) + 2 * Number(bits[1..])
  }

  lemma {:induction false} NumberAppend(bits: seq<bool>, b: bool)
    ensures Number(bits + [b]) == Number(bits) + if b then Pow2(|bits|) else 0
  {
    if bits == [] {
      assert (bits + [b])[1..] == [];
    } else {
      assert (bits + [b])[1..] == bits[1..] + [b];
      NumberAppend(bits[1..], b);
    }
  }

  lemma {:induction false} BitOfNumber(bits: seq<bool>, j: nat)
    ensures Bit(Number(bits), j) == (j < |bits| && bits[j])
  {
    if bits == [] {
      BitOfZero(j);
    } else if j > 0 {
      BitOfNumber(bits[1..], j - 1);
    }
  }

  lemma {:induction false} BitOfZero(j: nat)
    ensures !Bit(0, j)
  {
    if j > 0 { BitOfZero(j - 1); }
  }

  /** Setting the bit above those of a number appends it. */
  lemma SetBitAppends(bits: seq<bool>)
    ensures SetBit(Number(bits), |bits|) == Number(bits + [true])
  {
    BitOfNumber(bits, |bits|);
    NumberAppend(bits, true);
  }

  lemma Pow2Byte()
    ensures Pow2(8) == 256
  {
    assert Pow2(8) == 2 * Pow2(7) == 4 * Pow2(6) == 8 * Pow2(5) == 16 * Pow2(4) == 32 * Pow2(3);
  }

  lemma {:induction false} Pow2Monotone(m: nat, n: nat)
    requires m <= n
    ensures Pow2(m) <= Pow2(n)
  {
    if m < n { Pow2Monotone(m, n - 1); }
  }

  // ----- bools

  /** The bits that go into byte i. */
  function Chunk(values: seq<bool>, i: nat): (c: seq<bool>)
    requires 8 * i <= |values|
    ensures |c| <= 8
  {
    values[8 * i..Min(8 * i + 8, |values|)]
  }

  function ByteOf(bits: seq<bool>): Byte
    requires |bits| <= 8
  {
    Pow2Byte();
    Pow2Monotone(|bits|, 8);
    Number(bits)
  }

  function PackBits(values: seq<bool>): (data: seq<Byte>)
    ensures |data| == (|values| + 7) / 8
  {
    seq((|values| + 7) / 8, i requires 0 <= i < (|values| + 7) / 8 => ByteOf(Chunk(values, i)))
  }

  function UnpackBits(data: seq<Byte>): (bits: seq<bool>)
    ensures |bits| == 8 * |data|
  {
    seq(8 * |data|, k requires 0 <= k < 8 * |data| => Bit(data[k / 8], k % 8))
  }

  /** Unpacking gives the bools back, and the bits that fill up the last byte are zero. */
  lemma UnpackPack(values: seq<bool>)
    ensures UnpackBits(PackBits(values))[..|values|] == values
    ensures forall k :: |values| <= k < 8 * |PackBits(values)| ==> !UnpackBits(PackBits(values))[k]
  {
    var bits := UnpackBits(PackBits(values));
    forall k | 0 <= k < |bits|
      ensures bits[k] == (k < |values| && values[k])
    {
      BitOfNumber(Chunk(values, k / 8), k % 8);
    }
  }

  /** No two lists of bools of one length are packed alike. */
  lemma PackInjective(v: seq<bool>, w: seq<bool>)
    requires |v| == |w| && PackBits(v) == PackBits(w)
    ensures v == w
  {
    UnpackPack(v);
    UnpackPack(w);
  }

  function BoolsToDataSpec(values: seq<bool>, f: Byte): Result<seq<Byte>> {
    if f == WRITE_SINGLE_COIL then
      if |values| != 1 then Err(Other) else Ok(if values[0] then [0xFF, 0x00] else [0x00, 0x00])
    else Ok(PackBits(values))
  }

  /** Setting the bit of the next bool, if it is true, appends it to the byte under way. */
  lemma NextBit(bits: seq<bool>, b: bool)
    requires |bits| < 8
    ensures (if b then SetBit(Number(bits), |bits|) else Number(bits)) == Number(bits + [b]) < 256
  {
    NumberAppend(bits, b);
    SetBitAppends(bits);
    Pow2Byte();
    Pow2Monotone(|bits| + 1, 8);
  }

  /** The byte under way with one more bool, the bits so far being `bits`. */
  method AddBit(byteVal: Byte, bitNr: nat, b: bool, ghost bits: seq<bool>) returns (r: Byte)
    requires |bits| == bitNr < 8 && byteVal == Number(bits)
    ensures r == Number(bits + [b])
  {
    NextBit(bits, b);
    r := if b then SetBit(byteVal, bitNr) else byteVal;
  }

  lemma ChunkOfPrefix(values: seq<bool>, n: nat, k: nat)
    requires 8 * k + 8 <= n <= |values|
    ensures Chunk(values[..n], k) == values[8 * k..8 * k + 8]
  {
    assert Min(8 * k + 8, n) == 8 * k + 8;
    assert values[..n][8 * k..8 * k + 8] == values[8 * k..8 * k + 8];
  }

  /** One more byte, full or last. */
  lemma PackAppend(values: seq<bool>, i: nat, to: nat)
    requires 8 * i < to <= |values| && to <= 8 * i + 8
    ensures Number(values[8 * i..to]) < 256
    ensures PackBits(values[..to]) == PackBits(values[..8 * i]) + [Number(values[8 * i..to])]
  {
    var a, b := values[..8 * i], values[..to];
    Pow2Byte();
    Pow2Monotone(to - 8 * i, 8);
    assert Chunk(b, i) == values[8 * i..to];
    forall k | 0 <= k < i
      ensures PackBits(b)[k] == PackBits(a)[k]
    {
      ChunkOfPrefix(values, 8 * i, k);
      ChunkOfPrefix(values, to, k);
    }
  }

  /** The state of BoolsToData before bool v: whole bytes are stored, the byte under way holds the bools since then. */
  ghost predicate Packing(values: seq<bool>, v: nat, data: seq<Byte>, byteNr: nat, bitNr: nat, byteVal: Byte) {
    && |data| == (|values| + 7) / 8 && bitNr < 8
    && if v < |values| then
         && v == 8 * byteNr + bitNr && byteNr < |data|
         && byteVal == Number(values[8 * byteNr..v])
         && data[..byteNr] == PackBits(values[..8 * byteNr])
       else data == PackBits(values)
  }

  lemma PackingByte(values: seq<bool>, v: nat, data: seq<Byte>, byteNr: nat, bitNr: nat, byteVal: Byte, byteVal': Byte, bitNr': nat)
    requires v < |values| && Packing(values, v, data, byteNr, bitNr, byteVal) && bitNr' < 8
    requires byteVal' == Number(values[8 * byteNr..v + 1])
    ensures bitNr == 7 ==> Packing(values, v + 1, data[byteNr := byteVal'], byteNr + 1, 0, 0)
    ensures v + 1 == |values| ==> Packing(values, v + 1, data[byteNr := byteVal'], byteNr, bitNr', byteVal')
  {
    if bitNr == 7 || v + 1 == |values| {
      PackAppend(values, byteNr, v + 1);
      StoredByte(data, byteNr, byteVal');
      if v + 1 == |values| { assert values[..v + 1] == values; }
    }
  }

  lemma StoredByte(data: seq<Byte>, i: nat, b: Byte)
    requires i < |data|
    ensures data[i := b][..i + 1] == data[..i] + [b]
    ensures i + 1 == |data| ==> data[i := b] == data[..i] + [b]
  {}

  lemma SliceGrows(values: seq<bool>, i: nat, j: nat)
    requires i <= j < |values|
    ensures values[i..j + 1] == values[i..j] + [values[j]]
  {}

  /** Eight bools to a byte, filled from the least significant bit on. */
  method PackCoils(values: seq<bool>) returns (data: array<Byte>)
    ensures fresh(data) && data[..] == PackBits(values)
  {
    var count := |values|;
    data := new Byte[(count + 7) / 8](_ => 0);
    var byteNr, bitNr, byteVal: Byte := 0, 0, 0;
    for v := 0 to count
      invariant Packing(values, v, data[..], byteNr, bitNr, byteVal)
    {
      ghost var before, was := data[..], byteVal;
      byteVal := AddBit(byteVal, bitNr, values[v], values[8 * byteNr..v]);
      SliceGrows(values, 8 * byteNr, v);
      PackingByte(values, v, before, byteNr, bitNr, was, byteVal, bitNr);
      if bitNr == 7 {
        data[byteNr] := byteVal;
        assert data[..] == before[byteNr := byteVal];
        byteVal := 0;
        bitNr := 0;
        byteNr := byteNr + 1;
      } else if v + 1 == count {
        data[byteNr] := byteVal;
        assert data[..] == before[byteNr := byteVal];
      } else {
        bitNr := bitNr + 1;
      }
    }
  }

  method BoolsToData(values: seq<bool>, f: Byte) returns (r: Result<seq<Byte>>)
    ensures r == BoolsToDataSpec(values, f)
  {
    if f == WRITE_SINGLE_COIL {
      if |values| != 1 {
        return Err(Other);
      }
      return Ok(if values[0] then [0xFF, 0x00] else [0x00, 0x00]);
    }
    var data := PackCoils(values);
    r := Ok(data[..]);
  }

  /** The length test, which is in uint16. */
  predicate LengthFits(data: seq<Byte>, count: Word) { (count + 7) % 0x1_0000 / 8 == |data| % 0x1_0000 }

  /** The inputs on which slicing the bools to the count is out of range, and the code panics. */
  predicate Overruns(data: seq<Byte>, count: Word, f: Byte) { f != WRITE_SINGLE_COIL && count > 65528 && data == [] }

  /** These are exactly the inputs that pass the length test with more bools asked for than there are bits. */
  lemma OverrunsExactly(data: seq<Byte>, count: Word, f: Byte)
    requires f != WRITE_SINGLE_COIL
    ensures LengthFits(data, count) && count > 8 * |data| <==> Overruns(data, count, f)
  {
    if count > 65528 { assert (count + 7) % 0x1_0000 == count + 7 - 0x1_0000; }
  }

  /** What the library passes to it is never empty, so none of these are among its own inputs. */
  lemma ValuesAreThere(oversize: bool, p: Pdu)
    ensures RequestValues(oversize, p).Ok? ==> RequestValues(oversize, p).value != []
    ensures ReplyValues(p).Ok? ==> ReplyValues(p).value != []
  {}

  function DataToBoolsSpec(data: seq<Byte>, count: Word, f: Byte): Result<seq<bool>>
    requires !Overruns(data, count, f)
  {
    if f == WRITE_SINGLE_COIL then
      if |data| != 2 || data[1] != 0 then Err(Exception(ILLEGAL_DATA_VALUE))
      else if data[0] == 0 then Ok([false])
      else if data[0] == 0xFF then Ok([true])
      else Err(Exception(ILLEGAL_DATA_VALUE))
    else if !LengthFits(data, count) then Err(Exception(ILLEGAL_DATA_VALUE))
    else OverrunsExactly(data, count, f); Ok(UnpackBits(data)[..count])
  }

  /** None where the code panics. */
  method DataToBools(data: seq<Byte>, count: Word, f: Byte) returns (r: Option<Result<seq<bool>>>)
    ensures r == if Overruns(data, count, f) then None else Some(DataToBoolsSpec(data, count, f))
  {
    if f == WRITE_SINGLE_COIL {
      if |data| != 2 {
        return Some(Err(Exception(ILLEGAL_DATA_VALUE)));
      }
      if data[1] != 0 {
        return Some(Err(Exception(ILLEGAL_DATA_VALUE)));
      }
      if data[0] == 0 {
        return Some(Ok([false]));
      }
      if data[0] == 0xFF {
        return Some(Ok([true]));
      }
      return Some(Err(Exception(ILLEGAL_DATA_VALUE)));
    }
    OverrunsExactly(data, count, f);
    var byteCount := |data|;
    if (count + 7) % 0x1_0000 / 8 != byteCount % 0x1_0000 {
      return Some(Err(Exception(ILLEGAL_DATA_VALUE)));
    }
    var bits := Unpack(data);
    if count > 8 * byteCount {
      return None;
    }
    r := Some(Ok(bits[..count]));
  }

  /** The two loops of DataToBools. */
  method Unpack(data: seq<Byte>) returns (bits: array<bool>)
    ensures fresh(bits) && bits[..] == UnpackBits(data)
  {
    var byteCount := |data|;
    bits := new bool[8 * byteCount];
    for i := 0 to byteCount
      invariant forall k :: 0 <= k < 8 * i ==> bits[k] == UnpackBits(data)[k]
    {
      for j := 0 to 8
        invariant forall k :: 0 <= k < 8 * i + j ==> bits[k] == UnpackBits(data)[k]
      {
        bits[8 * i + j] := Bit(data[i], j);
      }
    }
  }

  // ----- registers

  function PackRegisters(values: seq<Word>): (data: seq<Byte>)
    ensures |data| == 2 * |values|
  {
    seq(2 * |values|, k requires 0 <= k < 2 * |values| => if k % 2 == 0 then High(values[k / 2]) else Low(values[k / 2]))
  }

  function UnpackRegisters(data: seq<Byte>): (values: seq<Word>)
    ensures |values| == |data| / 2
  {
    seq(|data| / 2, i requires 0 <= i < |data| / 2 => Join(data[2 * i], data[2 * i + 1]))
  }

  lemma UnpackPackRegisters(values: seq<Word>)
    ensures UnpackRegisters(PackRegisters(values)) == values
  {
    forall i | 0 <= i < |values| { RegisterAt(values, i); }
  }

  lemma RegisterAt(values: seq<Word>, i: nat)
    requires i < |values|
    ensures UnpackRegisters(PackRegisters(values))[i] == values[i]
  {
    var data := PackRegisters(values);
    assert data[2 * i] == High(values[i]);
    assert data[2 * i + 1] == Low(values[i]) by { assert (2 * i + 1) / 2 == i && (2 * i + 1) % 2 == 1; }
  }

  function DataToRegistersSpec(data: seq<Byte>): Result<seq<Word>> {
    if |data| < 2 || |data| % 2 != 0 then Err(Exception(ILLEGAL_DATA_VALUE)) else Ok(UnpackRegisters(data))
  }

  method DataToRegisters(data: seq<Byte>) returns (r: Result<seq<Word>>)
    ensures r == DataToRegistersSpec(data)
  {
    if |data| < 2 || |data| % 2 != 0 {
      return Err(Exception(ILLEGAL_DATA_VALUE));
    }
    var values := new Word[|data| / 2];
    for i := 0 to values.Length
      invariant forall k :: 0 <= k < i ==> values[k] == UnpackRegisters(data)[k]
    {
      values[i] := Join(data[2 * i], data[2 * i + 1]);
    }
    assert values[..] == UnpackRegisters(data);
    r := Ok(values[..]);
  }

  method RegistersToData(values: seq<Word>) returns (r: Result<seq<Byte>>)
    ensures r == Ok(PackRegisters(values))
  {
    var data := new Byte[2 * |values|];
    for i := 0 to |values|
      invariant forall k :: 0 <= k < 2 * i ==> data[k] == PackRegisters(values)[k]
    {
      data[2 * i] := High(values[i]);
      data[2 * i + 1] := Low(values[i]);
      assert (2 * i + 1) / 2 == i && (2 * i + 1) % 2 == 1;
    }
    assert data[..] == PackRegisters(values);
    r := Ok(data[..]);
  }
}
