/**
 The CRC-16 of the MODBUS serial line protocol as the bit-serial shift register that defines it,
 and what the checksum guarantees about damaged frames. The table-driven implementation is in
 module CrcTable.
 */
module Crc {
  import opened Bytes

  /** The 16-bit register as its two bytes, the form in which the checksum is sent. */
  datatype Register = Register(low: bv8, high: bv8) {
    function Value(): bv16 { ((high as bv16) << 8) | (low as bv16) }
  }

  const ZERO := Register(0, 0)
  const INITIAL := Register(0xFF, 0xFF)
  const GENERATOR := Register(0x01, 0xA0)

  function Xor(a: Register, b: Register): Register { Register(a.low ^ b.low, a.high ^ b.high) }

  /** One clock: shift right across both bytes; the bit that falls out masks the generator 0xA001. */
  function Shift(c: Register): Register {
    var out := 0 - (c.low & 1);
    Register(((c.low >> 1) | (c.high << 7)) ^ (out & 0x01), (c.high >> 1) ^ (out & 0xA0))
  }

  function ShiftN(n: nat, c: Register): Register {
    if n == 0 then c else ShiftN(n - 1, Shift(c))
  }

  /** The byte in the low half of a register. */
  function Wide(b: Byte): Register { Register(b as bv8, 0) }

  function ByteStep(c: Register, b: Byte): Register { ShiftN(8, Xor(c, Wide(b))) }

  /** The register after the bytes `bs`, starting from `c`. */
  function Run(c: Register, bs: seq<Byte>): Register
    decreases |bs|
  {
    if bs == [] then c else Run(ByteStep(c, bs[0]), bs[1..])
  }

  function LowByte(c: Register): Byte { c.low as int }

  function HighByte(c: Register): Byte { c.high as int }

  /** `bs` followed by its checksum, low byte first. */
  function Sum(bs: seq<Byte>): seq<Byte> {
    var c := Run(INITIAL, bs);
    bs + [LowByte(c), HighByte(c)]
  }

  /** Whether `bs` ends in its own checksum. */
  predicate Valid(bs: seq<Byte>) {
    && |bs| > 2
    && var c := Run(INITIAL, bs[..|bs| - 2]);
       bs[|bs| - 2] == LowByte(c) && bs[|bs| - 1] == HighByte(c)
  }

  /** Section 6.2.2 of the serial line guide: shift right, then XOR the generator if a 1 fell out. */
  lemma ShiftIsConditionalXor(c: Register)
    ensures Shift(c).Value() == if c.Value() & 1 == 1 then (c.Value() >> 1) ^ 0xA001 else c.Value() >> 1
  {
    assert c.Value() & 1 == (c.low & 1) as bv16;
    if c.low & 1 == 1 {
      assert Shift(c).Value() == (c.Value() >> 1) ^ 0xA001;
    } else {
      assert c.low & 1 == 0;
      assert Shift(c).Value() == c.Value() >> 1;
    }
  }

  // ----- the register is a linear map with no kernel

  lemma ShiftLinear(a: Register, b: Register)
    ensures Shift(Xor(a, b)) == Xor(Shift(a), Shift(b))
  {}

  lemma {:induction false} ShiftNLinear(n: nat, a: Register, b: Register)
    ensures ShiftN(n, Xor(a, b)) == Xor(ShiftN(n, a), ShiftN(n, b))
  {
    if n > 0 {
      ShiftLinear(a, b);
      ShiftNLinear(n - 1, Shift(a), Shift(b));
    }
  }

  lemma ShiftZero(c: Register)
    ensures Shift(c) == ZERO <==> c == ZERO
  {}

  lemma {:induction false} ShiftNZero(n: nat, c: Register)
    ensures ShiftN(n, c) == ZERO <==> c == ZERO
  {
    if n > 0 {
      ShiftZero(c);
      ShiftNZero(n - 1, Shift(c));
    }
  }

  lemma ShiftN8(c: Register)
    ensures ShiftN(8, c) == Shift(Shift(Shift(Shift(Shift(Shift(Shift(Shift(c))))))))
  {
    var d := Shift(Shift(Shift(Shift(c))));
    ShiftN4(4, c);
    ShiftN4(0, d);
  }

  lemma ShiftN4(n: nat, c: Register)
    ensures ShiftN(n + 4, c) == ShiftN(n, Shift(Shift(Shift(Shift(c)))))
  {
    assert ShiftN(n + 4, c) == ShiftN(n + 3, Shift(c)) == ShiftN(n + 2, Shift(Shift(c)));
    assert ShiftN(n + 2, Shift(Shift(c))) == ShiftN(n + 1, Shift(Shift(Shift(c))));
  }

  /** Eight clocks of a register whose low byte is clear need no feedback. */
  lemma Shift8High(v: bv8)
    ensures ShiftN(8, Register(0, v)) == Register(v, 0)
  {
    ShiftN8(Register(0, v));
  }

  lemma {:induction false} RunConcat(c: Register, a: seq<Byte>, b: seq<Byte>)
    ensures Run(c, a + b) == Run(Run(c, a), b)
    decreases |a|
  {
    if a == [] {
      assert a + b == b;
    } else {
      assert (a + b)[1..] == a[1..] + b;
      RunConcat(ByteStep(c, a[0]), a[1..], b);
    }
  }

  // ----- a frame is valid exactly when the register over all of it is clear

  lemma ByteRoundTrip(b: Byte)
    ensures (b as bv8) as int == b
  {
    assert 0 <= (b as bv8) as int < 256;
  }

  lemma SameByte(x: bv8, b: Byte)
    ensures x as int == b <==> x == b as bv8
  {
    ByteRoundTrip(b);
    assert (x as int) as bv8 == x;
  }

  lemma XorApart(c: Register, x: bv8, y: bv8)
    ensures Xor(Xor(c, Register(x, 0)), Register(0, y)) == ZERO <==> c.low == x && c.high == y
  {}

  lemma RunTwo(c: Register, x: Byte, y: Byte)
    ensures Run(c, [x, y]) == ByteStep(ByteStep(c, x), y)
  {
    assert [x, y][1..] == [y];
    assert [y][1..] == [];
    assert Run(ByteStep(c, x), [y]) == Run(ByteStep(ByteStep(c, x), y), []);
  }

  /** Two bytes fed in turn are the two halves of the register fed at once. */
  lemma RunTwoAtOnce(c: Register, x: Byte, y: Byte)
    ensures Run(c, [x, y]) == ShiftN(8, ShiftN(8, Xor(Xor(c, Wide(x)), Register(0, y as bv8))))
  {
    RunTwo(c, x, y);
    ShiftNLinear(8, Xor(c, Wide(x)), Register(0, y as bv8));
    Shift8High(y as bv8);
  }

  /** Two bytes clear the register exactly when they are its low and then its high byte. */
  lemma TwoBytesClear(c: Register, x: Byte, y: Byte)
    ensures Run(c, [x, y]) == ZERO <==> x == LowByte(c) && y == HighByte(c)
  {
    var d := Xor(Xor(c, Wide(x)), Register(0, y as bv8));
    RunTwoAtOnce(c, x, y);
    ShiftNZero(8, ShiftN(8, d));
    ShiftNZero(8, d);
    XorBytes(c, x, y);
  }

  lemma XorBytes(c: Register, x: Byte, y: Byte)
    ensures Xor(Xor(c, Wide(x)), Register(0, y as bv8)) == ZERO <==> x == LowByte(c) && y == HighByte(c)
  {
    XorApart(c, x as bv8, y as bv8);
    SameByte(c.low, x);
    SameByte(c.high, y);
  }

  /** `Valid` compares the last two bytes only; equivalently the register over the whole frame is clear. */
  lemma ValidIffClear(bs: seq<Byte>)
    requires |bs| > 2
    ensures Valid(bs) <==> Run(INITIAL, bs) == ZERO
  {
    var n := |bs|;
    RunConcat(INITIAL, bs[..n - 2], bs[n - 2..]);
    assert bs == bs[..n - 2] + bs[n - 2..];
    assert bs[n - 2..] == [bs[n - 2], bs[n - 1]];
    TwoBytesClear(Run(INITIAL, bs[..n - 2]), bs[n - 2], bs[n - 1]);
  }

  lemma SumIsValid(bs: seq<Byte>)
    requires bs != []
    ensures Valid(Sum(bs))
  {
    assert Sum(bs)[..|bs|] == bs;
  }

  /** The checksum is determined by the data: a valid frame is the sum of its own data. */
  lemma ValidIsSum(bs: seq<Byte>)
    requires Valid(bs)
    ensures bs == Sum(bs[..|bs| - 2])
  {}

  // ----- the same register fed one wire bit at a time, least significant bit first

  predicate Odd(v: Register) { v.low & 1 == 1 }

  function Half(v: Register): Register { Register((v.low >> 1) | (v.high << 7), v.high >> 1) }

  function BitStep(c: Register, bit: bool): Register {
    Shift(if bit then Xor(c, Register(1, 0)) else c)
  }

  function RunBits(c: Register, w: seq<bool>): Register
    decreases |w|
  {
    if w == [] then c else RunBits(BitStep(c, w[0]), w[1..])
  }

  function BitsOf(n: nat, v: Register): (w: seq<bool>)
    ensures |w| == n
  {
    if n == 0 then [] else [Odd(v)] + BitsOf(n - 1, Half(v))
  }

  /** The frame in wire order. */
  function FrameBits(bs: seq<Byte>): (w: seq<bool>)
    ensures |w| == 8 * |bs|
  {
    if bs == [] then [] else BitsOf(8, Wide(bs[0])) + FrameBits(bs[1..])
  }

  function HalfN(n: nat, v: Register): Register {
    if n == 0 then v else HalfN(n - 1, Half(v))
  }

  lemma FeedBit(c: Register, v: Register)
    ensures Shift(Xor(c, v)) == Xor(BitStep(c, Odd(v)), Half(v))
  {}

  lemma {:induction false} FeedBits(n: nat, c: Register, v: Register)
    ensures ShiftN(n, Xor(c, v)) == Xor(RunBits(c, BitsOf(n, v)), HalfN(n, v))
  {
    if n > 0 {
      var d, rest := BitStep(c, Odd(v)), Half(v);
      FeedBit(c, v);
      assert ShiftN(n, Xor(c, v)) == ShiftN(n - 1, Xor(d, rest));
      FeedBits(n - 1, d, rest);
      assert BitsOf(n, v)[1..] == BitsOf(n - 1, rest);
      assert RunBits(c, BitsOf(n, v)) == RunBits(d, BitsOf(n - 1, rest));
      assert HalfN(n, v) == HalfN(n - 1, rest);
    }
  }

  lemma HalfN4(n: nat, c: Register)
    ensures HalfN(n + 4, c) == HalfN(n, Half(Half(Half(Half(c)))))
  {
    assert HalfN(n + 4, c) == HalfN(n + 3, Half(c)) == HalfN(n + 2, Half(Half(c)));
    assert HalfN(n + 2, Half(Half(c))) == HalfN(n + 1, Half(Half(Half(c))));
  }

  lemma HalveFour(c: Register)
    ensures Half(Half(Half(Half(c)))) == Register((c.low >> 4) | (c.high << 4), c.high >> 4)
  {}

  lemma HalfByte(c: Register)
    ensures HalfN(8, c) == Register(c.high, 0)
  {
    var d := Register((c.low >> 4) | (c.high << 4), c.high >> 4);
    HalfN4(4, c);
    HalveFour(c);
    HalfN4(0, d);
    HalveFour(d);
    assert (d.low >> 4) | (d.high << 4) == c.high && d.high >> 4 == 0;
  }

  lemma {:induction false} RunBitsConcat(c: Register, a: seq<bool>, b: seq<bool>)
    ensures RunBits(c, a + b) == RunBits(RunBits(c, a), b)
    decreases |a|
  {
    if a == [] {
      assert a + b == b;
    } else {
      assert (a + b)[1..] == a[1..] + b;
      RunBitsConcat(BitStep(c, a[0]), a[1..], b);
    }
  }

  /** Feeding whole bytes is feeding their bits in wire order. */
  lemma {:induction false} RunIsRunBits(c: Register, bs: seq<Byte>)
    ensures Run(c, bs) == RunBits(c, FrameBits(bs))
    decreases |bs|
  {
    if bs != [] {
      var v := Wide(bs[0]);
      FeedBits(8, c, v);
      HalfByte(v);
      XorZero(RunBits(c, BitsOf(8, v)));
      RunBitsConcat(c, BitsOf(8, v), FrameBits(bs[1..]));
      RunIsRunBits(ByteStep(c, bs[0]), bs[1..]);
    }
  }

  lemma XorZero(c: Register)
    ensures Xor(c, ZERO) == c && Xor(c, c) == ZERO
  {}

  // ----- which damage the checksum detects

  /** Where two frames differ, bit by bit in wire order. */
  function Damage(v: seq<bool>, w: seq<bool>): (e: seq<bool>)
    requires |v| == |w|
    ensures |e| == |v|
    ensures forall i :: 0 <= i < |v| ==> e[i] == (v[i] != w[i])
  {
    if v == [] then [] else [v[0] != w[0]] + Damage(v[1..], w[1..])
  }

  lemma BitStepLinear(c: Register, d: Register, x: bool, y: bool)
    ensures Xor(BitStep(c, x), BitStep(d, y)) == BitStep(Xor(c, d), x != y)
  {
    var one := Register(1, 0);
    if x && y {
      XorCancel(c, d, one);
      ShiftLinear(Xor(c, one), Xor(d, one));
    } else if x {
      XorSwap(c, d, one);
      ShiftLinear(Xor(c, one), d);
    } else if y {
      XorAssociative(c, d, one);
      ShiftLinear(c, Xor(d, one));
    } else {
      ShiftLinear(c, d);
    }
  }

  lemma XorSwap(c: Register, d: Register, x: Register)
    ensures Xor(Xor(c, x), d) == Xor(Xor(c, d), x)
  {}

  lemma XorAssociative(c: Register, d: Register, x: Register)
    ensures Xor(c, Xor(d, x)) == Xor(Xor(c, d), x)
  {}

  lemma XorCancel(c: Register, d: Register, x: Register)
    ensures Xor(Xor(c, x), Xor(d, x)) == Xor(c, d)
  {
    XorByteCancel(c.low, d.low, x.low);
    XorByteCancel(c.high, d.high, x.high);
  }

  lemma XorByteCancel(a: bv8, b: bv8, p: bv8)
    ensures (a ^ p) ^ (b ^ p) == a ^ b
  {}

  lemma {:induction false} RunBitsLinear(c: Register, d: Register, v: seq<bool>, w: seq<bool>)
    requires |v| == |w|
    ensures Xor(RunBits(c, v), RunBits(d, w)) == RunBits(Xor(c, d), Damage(v, w))
    decreases |v|
  {
    if v != [] {
      BitStepLinear(c, d, v[0], w[0]);
      RunBitsLinear(BitStep(c, v[0]), BitStep(d, w[0]), v[1..], w[1..]);
      assert Damage(v, w)[1..] == Damage(v[1..], w[1..]);
    }
  }

  /**
   Exactly which damage goes unnoticed: with f valid, g of the same length is accepted if and only
   if the register started at zero and fed the damaged bits ends at zero.
   */
  lemma AcceptedIffDamageClears(f: seq<Byte>, g: seq<Byte>)
    requires |f| == |g| && Valid(f)
    ensures Valid(g) <==> RunBits(ZERO, Damage(FrameBits(f), FrameBits(g))) == ZERO
  {
    ValidIffClear(f);
    ValidIffClear(g);
    RunIsRunBits(INITIAL, f);
    RunIsRunBits(INITIAL, g);
    RunBitsLinear(INITIAL, INITIAL, FrameBits(f), FrameBits(g));
    XorZero(INITIAL);
    assert Xor(ZERO, RunBits(INITIAL, FrameBits(g))) == RunBits(INITIAL, FrameBits(g));
  }

  lemma {:induction false} HalfNAdd(m: nat, n: nat, c: Register)
    ensures HalfN(m + n, c) == HalfN(n, HalfN(m, c))
  {
    if m > 0 {
      HalfNAdd(m - 1, n, Half(c));
    }
  }

  lemma {:induction false} HalfNZero(n: nat)
    ensures HalfN(n, ZERO) == ZERO && forall i :: 0 <= i < n ==> !BitsOf(n, ZERO)[i]
  {
    if n > 0 {
      assert Half(ZERO) == ZERO;
      HalfNZero(n - 1);
    }
  }

  lemma TopBitClear(n: nat, c: Register)
    requires n <= 15 && HalfN(n, c) == ZERO
    ensures c.high & 0x80 == 0
  {
    HalfNAdd(n, 15 - n, c);
    HalfNZero(15 - n);
    assert HalfN(15, c) == HalfN(10, Half(Half(Half(Half(Half(c)))))) by { HalfN5(10, c); }
    var d := Half(Half(Half(Half(Half(c)))));
    HalfN5(5, d);
    var e := Half(Half(Half(Half(Half(d)))));
    HalfN5(0, e);
  }

  lemma HalfN5(n: nat, c: Register)
    ensures HalfN(n + 5, c) == HalfN(n, Half(Half(Half(Half(Half(c))))))
  {
    assert HalfN(n + 5, c) == HalfN(n + 4, Half(c)) == HalfN(n + 3, Half(Half(c)));
    assert HalfN(n + 3, Half(Half(c))) == HalfN(n + 2, Half(Half(Half(c)))) == HalfN(n + 1, Half(Half(Half(Half(c)))));
  }

  /** A shift that leaves the top bit clear shifted out a zero. */
  lemma ShiftBack(c: Register, bit: bool)
    requires BitStep(c, bit).high & 0x80 == 0
    ensures Odd(c) == bit && Half(c) == BitStep(c, bit)
  {}

  /** The only register that at most sixteen bits can clear is the one holding those bits. */
  lemma {:induction false} ClearedBy(c: Register, w: seq<bool>)
    requires |w| <= 16 && RunBits(c, w) == ZERO
    ensures BitsOf(|w|, c) == w && HalfN(|w|, c) == ZERO
    decreases |w|
  {
    if w != [] {
      var d := BitStep(c, w[0]);
      ClearedBy(d, w[1..]);
      TopBitClear(|w| - 1, d);
      ShiftBack(c, w[0]);
    }
  }

  lemma {:induction false} ZerosKeep(c: Register, w: seq<bool>)
    requires forall i :: 0 <= i < |w| ==> !w[i]
    ensures RunBits(c, w) == ZERO <==> c == ZERO
    decreases |w|
  {
    if w != [] {
      ShiftZero(c);
      ZerosKeep(Shift(c), w[1..]);
    }
  }

  /** A burst: every damaged bit lies among the sixteen wire bits from position k on. */
  ghost predicate BurstAt(e: seq<bool>, k: nat) {
    forall i :: 0 <= i < |e| && e[i] ==> k <= i < k + 16
  }

  lemma BurstNeverClears(e: seq<bool>, k: nat)
    requires BurstAt(e, k) && RunBits(ZERO, e) == ZERO
    ensures forall i :: 0 <= i < |e| ==> !e[i]
  {
    var m := if k < |e| then k else |e|;
    var n := if k + 16 < |e| then k + 16 else |e|;
    ThreeParts(e, m, n);
    BurstClears(e[..m], e[m..n], e[n..]);
    forall i | 0 <= i < |e|
      ensures !e[i]
    {
      if m <= i < n { assert e[i] == e[m..n][i - m]; }
    }
  }

  lemma ThreeParts(e: seq<bool>, m: nat, n: nat)
    requires m <= n <= |e|
    ensures e == e[..m] + (e[m..n] + e[n..])
  {}

  lemma BurstClears(a: seq<bool>, w: seq<bool>, z: seq<bool>)
    requires forall i :: 0 <= i < |a| ==> !a[i]
    requires forall i :: 0 <= i < |z| ==> !z[i]
    requires |w| <= 16 && RunBits(ZERO, a + (w + z)) == ZERO
    ensures forall i :: 0 <= i < |w| ==> !w[i]
  {
    RunBitsConcat(ZERO, a, w + z);
    ZerosKeep(ZERO, a);
    RunBitsConcat(ZERO, w, z);
    ZerosKeep(RunBits(ZERO, w), z);
    ClearedBy(ZERO, w);
    HalfNZero(|w|);
  }

  lemma {:induction false} BitsOfByteInjective(n: nat, v: Register, w: Register)
    requires BitsOf(n, v) == BitsOf(n, w) && HalfN(n, v) == HalfN(n, w)
    ensures v == w
  {
    if n > 0 {
      assert BitsOf(n, v)[1..] == BitsOf(n - 1, Half(v));
      assert BitsOf(n, w)[1..] == BitsOf(n - 1, Half(w));
      BitsOfByteInjective(n - 1, Half(v), Half(w));
      assert BitsOf(n, v)[0] == BitsOf(n, w)[0];
      SameHalves(v, w);
    }
  }

  lemma SameHalves(v: Register, w: Register)
    requires Odd(v) == Odd(w) && Half(v) == Half(w)
    ensures v == w
  {}

  lemma WideInjective(x: Byte, y: Byte)
    requires Wide(x) == Wide(y)
    ensures x == y
  {
    assert x as bv8 == y as bv8;
    ByteRoundTrip(x);
    ByteRoundTrip(y);
  }

  lemma {:induction false} FrameBitsInjective(f: seq<Byte>, g: seq<Byte>)
    requires |f| == |g| && FrameBits(f) == FrameBits(g)
    ensures f == g
  {
    if f != [] {
      assert FrameBits(f)[..8] == BitsOf(8, Wide(f[0])) && FrameBits(f)[8..] == FrameBits(f[1..]);
      assert FrameBits(g)[..8] == BitsOf(8, Wide(g[0])) && FrameBits(g)[8..] == FrameBits(g[1..]);
      HalfByte(Wide(f[0]));
      HalfByte(Wide(g[0]));
      BitsOfByteInjective(8, Wide(f[0]), Wide(g[0]));
      WideInjective(f[0], g[0]);
      FrameBitsInjective(f[1..], g[1..]);
      assert f == [f[0]] + f[1..] && g == [g[0]] + g[1..];
    }
  }

  /** Every burst of at most sixteen wire bits, wherever it falls and however long the frame, is detected. */
  lemma BurstDetected(f: seq<Byte>, g: seq<Byte>, k: nat)
    requires |f| == |g| && f != g && Valid(f)
    requires BurstAt(Damage(FrameBits(f), FrameBits(g)), k)
    ensures !Valid(g)
  {
    AcceptedIffDamageClears(f, g);
    var e := Damage(FrameBits(f), FrameBits(g));
    if RunBits(ZERO, e) == ZERO {
      BurstNeverClears(e, k);
      assert forall i :: 0 <= i < |e| ==> e[i] == (FrameBits(f)[i] != FrameBits(g)[i]);
      FrameBitsInjective(f, g);
    }
  }

  // ----- parity

  /** Whether an odd number of bits is set. */
  function ParityOf(w: seq<bool>): bool {
    if w == [] then false else w[0] != ParityOf(w[1..])
  }

  /** The parity of the n lowest bits. */
  function ParityN(n: nat, c: Register): bool { ParityOf(BitsOf(n, c)) }

  function Parity(c: Register): bool { ParityN(16, c) }

  lemma {:induction false} BitsOfLinear(n: nat, a: Register, b: Register)
    ensures BitsOf(n, Xor(a, b)) == Damage(BitsOf(n, a), BitsOf(n, b))
  {
    if n > 0 {
      HalfLinear(a, b);
      OddLinear(a, b);
      BitsOfLinear(n - 1, Half(a), Half(b));
    }
  }

  lemma ParityNLinear(n: nat, a: Register, b: Register)
    ensures ParityN(n, Xor(a, b)) == (ParityN(n, a) != ParityN(n, b))
  {
    BitsOfLinear(n, a, b);
    ParityOfDamage(BitsOf(n, a), BitsOf(n, b));
  }

  lemma ParityNStep(n: nat, c: Register)
    ensures ParityN(n + 1, c) == (Odd(c) != ParityN(n, Half(c)))
  {
    assert BitsOf(n + 1, c) == [Odd(c)] + BitsOf(n, Half(c));
  }

  lemma HalfLinear(a: Register, b: Register)
    ensures Half(Xor(a, b)) == Xor(Half(a), Half(b))
  {}

  lemma OddLinear(a: Register, b: Register)
    ensures Odd(Xor(a, b)) == (Odd(a) != Odd(b))
  {}

  lemma {:induction false} ParityNShort(n: nat, c: Register)
    requires HalfN(n, c) == ZERO
    ensures ParityN(n + 1, c) == ParityN(n, c)
  {
    ParityNStep(n, c);
    if n > 0 {
      ParityNStep(n - 1, c);
      ParityNShort(n - 1, Half(c));
    }
  }

  lemma ShiftByHalving(c: Register)
    ensures Shift(c) == if Odd(c) then Xor(Half(c), GENERATOR) else Half(c)
  {
    if c.low & 1 == 1 {
      assert 0 - (c.low & 1) == 0xFF;
    } else {
      assert c.low & 1 == 0;
    }
  }

  lemma HalfParity(c: Register)
    ensures Parity(Half(c)) == (Odd(c) != Parity(c))
  {
    HalfNAdd(8, 8, c);
    HalfByte(c);
    HalfByte(Register(c.high, 0));
    ParityNShort(15, Half(c));
    ParityNStep(15, c);
  }

  /** The generator's lower terms are odd in number, which makes up for the bit shifted out. */
  lemma ShiftKeepsParity(c: Register)
    ensures Parity(Shift(c)) == Parity(c)
  {
    HalfParity(c);
    ShiftByHalving(c);
    ParityNLinear(16, Half(c), GENERATOR);
    GeneratorParity();
  }

  lemma {:induction false} ParityNZero(n: nat)
    ensures !ParityN(n, ZERO)
  {
    if n > 0 {
      assert Half(ZERO) == ZERO;
      ParityNZero(n - 1);
      ParityNStep(n - 1, ZERO);
    }
  }

  lemma HalfParity4(n: nat, c: Register)
    ensures var d := Half(c);
            var e := Half(d);
            var f := Half(e);
            ParityN(n + 4, c) == (Odd(c) != (Odd(d) != (Odd(e) != (Odd(f) != ParityN(n, Half(f))))))
  {
    ParityNStep(n + 3, c);
    ParityNStep(n + 2, Half(c));
    ParityNStep(n + 1, Half(Half(c)));
    ParityNStep(n, Half(Half(Half(c))));
  }

  lemma GeneratorParity()
    ensures Parity(GENERATOR)
  {
    HalfParity4(12, GENERATOR);
    HalfParity4(8, Register(0x00, 0x0A));
    HalfParity4(4, Register(0xA0, 0x00));
    HalfParity4(0, Register(0x0A, 0x00));
  }

  lemma InitialParity()
    ensures !Parity(INITIAL)
  {
    HalfParity4(12, INITIAL);
    HalfParity4(8, Register(0xFF, 0x0F));
    HalfParity4(4, Register(0xFF, 0x00));
    HalfParity4(0, Register(0x0F, 0x00));
  }

  lemma FlipParity(c: Register)
    ensures Parity(Xor(c, Register(1, 0))) == !Parity(c)
  {
    ParityNLinear(16, c, Register(1, 0));
    assert Half(Register(1, 0)) == ZERO;
    ParityNStep(15, Register(1, 0));
    ParityNZero(15);
  }

  lemma {:induction false} RunBitsParity(c: Register, w: seq<bool>)
    ensures Parity(RunBits(c, w)) == (Parity(c) != ParityOf(w))
    decreases |w|
  {
    if w != [] {
      var d := if w[0] then Xor(c, Register(1, 0)) else c;
      FlipParity(c);
      ShiftKeepsParity(d);
      RunBitsParity(BitStep(c, w[0]), w[1..]);
    }
  }

  /** Every valid frame, whatever its length, carries an even number of ones. */
  lemma ValidHasEvenParity(f: seq<Byte>)
    requires Valid(f)
    ensures !ParityOf(FrameBits(f))
  {
    ValidIffClear(f);
    RunIsRunBits(INITIAL, f);
    RunBitsParity(INITIAL, FrameBits(f));
    InitialParity();
    ParityNZero(16);
  }

  lemma {:induction false} ParityOfDamage(v: seq<bool>, w: seq<bool>)
    requires |v| == |w|
    ensures ParityOf(Damage(v, w)) == (ParityOf(v) != ParityOf(w))
  {
    if v != [] {
      ParityOfDamage(v[1..], w[1..]);
      assert Damage(v, w)[1..] == Damage(v[1..], w[1..]);
    }
  }

  /** Damage to an odd number of bits, wherever they are, is detected. */
  lemma OddDamageDetected(f: seq<Byte>, g: seq<Byte>)
    requires |f| == |g| && Valid(f)
    requires ParityOf(Damage(FrameBits(f), FrameBits(g)))
    ensures !Valid(g)
  {
    ValidHasEvenParity(f);
    ParityOfDamage(FrameBits(f), FrameBits(g));
    if Valid(g) { ValidHasEvenParity(g); }
  }

  /** In bytes: two valid frames of one length that differ only in two adjacent bytes are equal. */
  lemma AdjacentBytesDetected(f: seq<Byte>, g: seq<Byte>, i: nat)
    requires |f| == |g| && f != g && Valid(f)
    requires forall j :: 0 <= j < |f| && f[j] != g[j] ==> i <= j <= i + 1
    ensures !Valid(g)
  {
    var e := Damage(FrameBits(f), FrameBits(g));
    forall k | 0 <= k < |e| && e[k]
      ensures 8 * i <= k < 8 * i + 16
    {
      FrameBitsAt(f, k);
      FrameBitsAt(g, k);
    }
    BurstDetected(f, g, 8 * i);
  }

  lemma {:induction false} FrameBitsAt(f: seq<Byte>, k: nat)
    requires k < 8 * |f|
    ensures FrameBits(f)[k] == BitsOf(8, Wide(f[k / 8]))[k % 8]
  {
    if k < 8 {
      assert FrameBits(f)[..8] == BitsOf(8, Wide(f[0]));
    } else {
      assert FrameBits(f)[8..] == FrameBits(f[1..]);
      FrameBitsAt(f[1..], k - 8);
      assert (k - 8) / 8 == k / 8 - 1 && (k - 8) % 8 == k % 8;
    }
  }
}
