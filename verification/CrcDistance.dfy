/**
 How far apart two flipped bits may be to be detected. The register is multiplied by x in every step, modulo the generator
 (x + 1)(x^15 + x + 1); the order of x is 32767 = 7 * 31 * 151.
 */
module CrcDistance {
  import opened Bytes
  import opened Crc

  // ----- powers of x

  /** The polynomial 1: coefficients are kept from the highest bit of the register down. */
  const UNIT := Register(0x00, 0x80)

  /** A product under way: the sum so far, and the coefficients not yet used. */
  datatype Product = Product(sum: Register, rest: Register)

  /** One step of Horner's scheme. */
  function Step(w: Register, p: Product): Product {
    Product(Xor(Shift(p.sum), if Odd(p.rest) then w else ZERO), Half(p.rest))
  }

  function Four(w: Register, p: Product): Product { Step(w, Step(w, Step(w, Step(w, p)))) }

  /** The product of two polynomials modulo the generator. */
  function Mul(v: Register, w: Register): Register { Four(w, Four(w, Four(w, Four(w, Product(ZERO, v))))).sum }

  lemma {:induction false} ShiftNAdd(m: nat, n: nat, c: Register)
    ensures ShiftN(m + n, c) == ShiftN(n, ShiftN(m, c))
  {
    if m > 0 { ShiftNAdd(m - 1, n, Shift(c)); }
  }

  lemma ShiftsCommute(m: nat, n: nat, c: Register)
    ensures ShiftN(m, ShiftN(n, c)) == ShiftN(n, ShiftN(m, c))
  {
    ShiftNAdd(m, n, c);
    ShiftNAdd(n, m, c);
  }

  lemma ShiftOne(n: nat, c: Register)
    ensures ShiftN(n + 1, c) == Shift(ShiftN(n, c)) == ShiftN(n, Shift(c))
  {
    ShiftNAdd(n, 1, c);
    ShiftNAdd(1, n, c);
    assert ShiftN(1, ShiftN(n, c)) == ShiftN(0, Shift(ShiftN(n, c)));
  }

  function Shifted(n: nat, p: Product): Product { p.(sum := ShiftN(n, p.sum)) }

  lemma StepShifted(n: nat, w: Register, p: Product)
    ensures Step(ShiftN(n, w), Shifted(n, p)) == Shifted(n, Step(w, p))
  {
    var term := if Odd(p.rest) then w else ZERO;
    ShiftNLinear(n, Shift(p.sum), term);
    ShiftOne(n, p.sum);
    ShiftNZero(n, ZERO);
  }

  lemma FourShifted(n: nat, w: Register, p: Product)
    ensures Four(ShiftN(n, w), Shifted(n, p)) == Shifted(n, Four(w, p))
  {
    StepShifted(n, w, p);
    StepShifted(n, w, Step(w, p));
    StepShifted(n, w, Step(w, Step(w, p)));
    StepShifted(n, w, Step(w, Step(w, Step(w, p))));
  }

  lemma MulShifted(n: nat, v: Register, w: Register)
    ensures Mul(v, ShiftN(n, w)) == ShiftN(n, Mul(v, w))
  {
    var p := Product(ZERO, v);
    ShiftNZero(n, ZERO);
    assert Shifted(n, p) == p;
    FourShifted(n, w, p);
    FourShifted(n, w, Four(w, p));
    FourShifted(n, w, Four(w, Four(w, p)));
    FourShifted(n, w, Four(w, Four(w, Four(w, p))));
  }

  /** Powers multiply. The first factor is what its coefficients say, which is evaluated for each one used. */
  lemma PowerSum(m: nat, n: nat, v: Register, w: Register)
    requires ShiftN(m, UNIT) == v && ShiftN(n, UNIT) == w && Mul(v, UNIT) == v
    ensures ShiftN(m + n, UNIT) == Mul(v, w)
  {
    ShiftNAdd(m, n, UNIT);
    MulShifted(n, v, UNIT);
  }

  lemma Doubled(n: nat, v: Register, r: Register)
    requires ShiftN(n, UNIT) == v && Mul(v, UNIT) == v && Mul(v, v) == r
    ensures ShiftN(2 * n, UNIT) == r
  {
    PowerSum(n, n, v, v);
  }

  lemma Power8()
    ensures ShiftN(8, UNIT) == Register(0x80, 0x00)
  {
    Shift8High(0x80);
  }

  lemma Power9()
    ensures ShiftN(9, UNIT) == Register(0x40, 0x00)
  {
    Power8();
    ShiftOne(8, UNIT);
  }

  lemma Power13()
    ensures ShiftN(13, UNIT) == Register(0x04, 0x00)
  {
    Power9();
    ShiftNAdd(9, 4, UNIT);
    ShiftN4(0, Register(0x40, 0x00));
  }

  lemma Power36()
    ensures ShiftN(36, UNIT) == Register(0x81, 0xC2)
  {
    Power9();
    Doubled(9, Register(0x40, 0x00), Register(0x01, 0xD8));
    Doubled(18, Register(0x01, 0xD8), Register(0x81, 0xC2));
  }

  lemma Power146()
    ensures ShiftN(146, UNIT) == Register(0x19, 0xCA)
  {
    Power36();
    Doubled(36, Register(0x81, 0xC2), Register(0x08, 0x60));
    ShiftOne(72, UNIT);
    Doubled(73, Register(0x04, 0x30), Register(0x19, 0xCA));
  }

  lemma Power585()
    ensures ShiftN(585, UNIT) == Register(0x31, 0x0F)
  {
    Power146();
    Doubled(146, Register(0x19, 0xCA), Register(0x69, 0xC1));
    Doubled(292, Register(0x69, 0xC1), Register(0x62, 0x1E));
    ShiftOne(584, UNIT);
  }

  lemma Power2340()
    ensures ShiftN(2340, UNIT) == Register(0x4C, 0x8E)
  {
    Power585();
    Doubled(585, Register(0x31, 0x0F), Register(0x2B, 0x67));
    Doubled(1170, Register(0x2B, 0x67), Register(0x4C, 0x8E));
  }

  lemma Power4681()
    ensures ShiftN(4681, UNIT) == Register(0x69, 0x8C)
  {
    Power2340();
    Doubled(2340, Register(0x4C, 0x8E), Register(0xD1, 0x58));
    ShiftOne(4680, UNIT);
  }

  lemma Power33()
    ensures ShiftN(33, UNIT) == Register(0x01, 0xD4)
  {
    Power8();
    Doubled(8, Register(0x80, 0x00), Register(0x01, 0xA0));
    Doubled(16, Register(0x01, 0xA0), Register(0x01, 0xE8));
    ShiftOne(32, UNIT);
  }

  lemma Power132()
    ensures ShiftN(132, UNIT) == Register(0x08, 0x06)
  {
    Power33();
    Doubled(33, Register(0x01, 0xD4), Register(0x21, 0xC2));
    Doubled(66, Register(0x21, 0xC2), Register(0x08, 0x06));
  }

  lemma Power528()
    ensures ShiftN(528, UNIT) == Register(0x61, 0xD8)
  {
    Power132();
    Doubled(132, Register(0x08, 0x06), Register(0x49, 0xC0));
    Doubled(264, Register(0x49, 0xC0), Register(0x61, 0xD8));
  }

  lemma Power1057()
    ensures ShiftN(1057, UNIT) == Register(0x41, 0xCE)
  {
    Power528();
    Doubled(528, Register(0x61, 0xD8), Register(0x81, 0xDC));
    ShiftOne(1056, UNIT);
  }

  lemma Power54()
    ensures ShiftN(54, UNIT) == Register(0x79, 0xC0)
  {
    Power13();
    Doubled(13, Register(0x04, 0x00), Register(0x19, 0xC0));
    ShiftOne(26, UNIT);
    Doubled(27, Register(0x0D, 0xC0), Register(0x79, 0xC0));
  }

  lemma Power217()
    ensures ShiftN(217, UNIT) == Register(0x55, 0x3E)
  {
    Power54();
    Doubled(54, Register(0x79, 0xC0), Register(0xE1, 0xDF));
    Doubled(108, Register(0xE1, 0xDF), Register(0xAA, 0x7C));
    ShiftOne(216, UNIT);
  }

  lemma Power14043()
    ensures ShiftN(14043, UNIT) == Register(0x68, 0xCC)
  {
    Power4681();
    Doubled(4681, Register(0x69, 0x8C), Register(0xC0, 0x3E));
    PowerSum(9362, 4681, Register(0xC0, 0x3E), Register(0x69, 0x8C));
    assert Mul(Register(0xC0, 0x3E), Register(0x69, 0x8C)) == Register(0x68, 0xCC);
  }

  lemma Power32767()
    ensures ShiftN(32767, UNIT) == UNIT
  {
    Power14043();
    Power4681();
    Doubled(14043, Register(0x68, 0xCC), Register(0xC1, 0x7E));
    PowerSum(28086, 4681, Register(0xC1, 0x7E), Register(0x69, 0x8C));
    assert Mul(Register(0xC1, 0x7E), Register(0x69, 0x8C)) == UNIT;
  }

  // ----- the order of x

  const ORDER := 32767

  predicate Period(d: nat) { ShiftN(d, UNIT) == UNIT }

  lemma PeriodRest(a: nat, b: nat)
    requires Period(a) && Period(a + b)
    ensures Period(b)
  {
    ShiftNAdd(a, b, UNIT);
  }

  lemma {:induction false} PeriodTimes(d: nat, k: nat)
    requires Period(d)
    ensures Period(d * k)
    decreases k
  {
    if k == 0 {
      assert d * k == 0;
    } else {
      PeriodTimes(d, k - 1);
      assert d * k == d + d * (k - 1);
      ShiftNAdd(d, d * (k - 1), UNIT);
    }
  }

  lemma PeriodMod(a: nat, b: nat)
    requires a > 0 && Period(a) && Period(b)
    ensures Period(b % a)
  {
    PeriodTimes(a, b / a);
    assert b == a * (b / a) + b % a;
    PeriodRest(a * (b / a), b % a);
  }

  predicate IsFactor(p: nat) { p == 7 || p == 31 || p == 151 }

  lemma NotSmall(p: nat, k: nat, q: nat)
    requires IsFactor(p) && 1 < k <= 12 && k < p
    ensures p != k * q
  {
    if k == 2 { } else if k == 3 { } else if k == 4 { } else if k == 5 { } else if k == 6 { } else if k == 7 { }
    else if k == 8 { } else if k == 9 { } else if k == 10 { } else if k == 11 { } else { }
  }

  /** The factors are prime. */
  lemma NoMultiple(p: nat, r: nat, q: nat)
    requires IsFactor(p) && 1 < r < p
    ensures p != r * q
  {
    if r <= 12 {
      NotSmall(p, r, q);
    } else if q > 12 {
      assert r * q >= 13 * q;
    } else if q > 1 {
      NotSmall(p, q, r);
    } else {
      assert r * q <= r;
    }
  }

  lemma Distribute(u: nat, r: nat, k: nat, q: nat)
    ensures u * (r * k + q) == u * r * k + u * q
  {}

  lemma DescendStep(u: nat, p: nat, r: nat, k: nat, q: nat)
    requires p == r * k + q && Period(u * p) && Period(u * r)
    ensures Period(u * q)
  {
    PeriodTimes(u * r, k);
    Distribute(u, r, k, q);
    PeriodRest(u * r * k, u * q);
  }

  lemma Divide(a: nat, b: nat) returns (k: nat, q: nat)
    requires b > 0
    ensures a == b * k + q && q < b
  {
    k, q := a / b, a % b;
  }

  /** The remainders of p, taken again and again, come down to one. */
  lemma {:induction false} Descend(u: nat, p: nat, r: nat)
    requires IsFactor(p) && 0 < r < p && Period(u * p) && Period(u * r)
    ensures Period(u)
    decreases r
  {
    if r == 1 {
      assert u * r == u;
    } else {
      var k, q := Divide(p, r);
      NoMultiple(p, r, k);
      DescendStep(u, p, r, k, q);
      Descend(u, p, q);
    }
  }

  /** A period is a multiple of every prime factor p of the order, unless the other factors are one by themselves. */
  lemma FactorDivides(u: nat, p: nat, d: nat) returns (k: nat)
    requires IsFactor(p) && u * p == ORDER && Period(ORDER) && !Period(u) && Period(d)
    ensures d == p * k
  {
    var r;
    k, r := Divide(d, p);
    if r > 0 {
      PeriodTimes(d, u);
      assert d * u == u * d;
      DescendStep(u, d, p, k, r);
      Descend(u, p, r);
    }
  }

  lemma Together(d: int, a: int, b: int, c: int)
    requires d == 7 * a && d == 31 * b && d == 151 * c
    ensures d == ORDER * (135 * c - 194 * (9 * b - 2 * a))
  {}

  lemma MultiplesOfOrder(g: int)
    ensures ORDER * g % ORDER == 0
  {}

  /** The order of x: exactly its multiples are periods. */
  lemma PeriodIff(d: nat)
    ensures Period(d) <==> d % ORDER == 0
  {
    Power32767();
    if Period(d) {
      Power4681();
      var a := FactorDivides(4681, 7, d);
      Power1057();
      var b := FactorDivides(1057, 31, d);
      Power217();
      var c := FactorDivides(217, 151, d);
      Together(d, a, b, c);
      MultiplesOfOrder(135 * c - 194 * (9 * b - 2 * a));
    }
    if d % ORDER == 0 { PeriodTimes(ORDER, d / ORDER); }
  }

  // ----- two flipped bits

  const ONE := Register(1, 0)

  lemma XorEqual(a: Register, b: Register)
    ensures Xor(a, b) == ZERO <==> a == b
  {}

  lemma ShiftInjective(a: Register, b: Register)
    requires Shift(a) == Shift(b)
    ensures a == b
  {}

  lemma {:induction false} ShiftNInjective(n: nat, a: Register, b: Register)
    requires ShiftN(n, a) == ShiftN(n, b)
    ensures a == b
  {
    if n > 0 {
      ShiftNInjective(n - 1, Shift(a), Shift(b));
      ShiftInjective(a, b);
    }
  }

  lemma Power15()
    ensures ShiftN(15, UNIT) == ONE
  {
    Power13();
    ShiftOne(13, UNIT);
    ShiftOne(14, UNIT);
  }

  /** One bit comes around to itself like the polynomial 1. */
  lemma OnePeriodIff(d: nat)
    ensures ShiftN(d, ONE) == ONE <==> d % ORDER == 0
  {
    Power15();
    ShiftsCommute(d, 15, UNIT);
    if ShiftN(d, ONE) == ONE { ShiftNInjective(15, ShiftN(d, UNIT), UNIT); }
    PeriodIff(d);
  }

  lemma {:induction false} ZerosShift(c: Register, w: seq<bool>)
    requires forall i :: 0 <= i < |w| ==> !w[i]
    ensures RunBits(c, w) == ShiftN(|w|, c)
    decreases |w|
  {
    if w != [] { ZerosShift(Shift(c), w[1..]); }
  }

  /** A flipped bit, zeros, and another flipped bit. */
  lemma BetweenFlips(z: seq<bool>)
    requires forall i :: 0 <= i < |z| ==> !z[i]
    ensures RunBits(ZERO, [true] + z + [true]) == ZERO <==> (|z| + 1) % ORDER == 0
  {
    var d := ShiftN(|z| + 1, ONE);
    assert Xor(ZERO, ONE) == ONE;
    assert ([true] + z)[1..] == z;
    assert RunBits(ZERO, [true] + z) == RunBits(Shift(ONE), z);
    ZerosShift(Shift(ONE), z);
    RunBitsConcat(ZERO, [true] + z, [true]);
    assert [true][1..] == [];
    assert RunBits(d, [true]) == RunBits(Shift(Xor(d, ONE)), []) == Shift(Xor(d, ONE));
    ShiftZero(Xor(d, ONE));
    XorEqual(d, ONE);
    OnePeriodIff(|z| + 1);
  }

  /** Exactly the bits i and j are set. */
  predicate Two(e: seq<bool>, i: nat, j: nat) {
    i < j < |e| && forall k :: 0 <= k < |e| ==> e[k] == (k == i || k == j)
  }

  lemma TwoClearIff(e: seq<bool>, i: nat, j: nat)
    requires Two(e, i, j)
    ensures RunBits(ZERO, e) == ZERO <==> (j - i) % ORDER == 0
  {
    var a, z, b := e[..i], e[i + 1..j], e[j + 1..];
    var flips := [true] + z + [true];
    assert e == a + (flips + b);
    RunBitsConcat(ZERO, a, flips + b);
    ZerosKeep(ZERO, a);
    RunBitsConcat(ZERO, flips, b);
    ZerosKeep(RunBits(ZERO, flips), b);
    BetweenFlips(z);
  }

  /** Two flipped bits of a packet, checksum included, are detected exactly if their distance is no multiple of 32767. */
  lemma TwoFlipsDetectedIff(f: seq<Byte>, g: seq<Byte>, i: nat, j: nat)
    requires |f| == |g| && Valid(f) && Two(Damage(FrameBits(f), FrameBits(g)), i, j)
    ensures !Valid(g) <==> (j - i) % ORDER != 0
  {
    AcceptedIffDamageClears(f, g);
    TwoClearIff(Damage(FrameBits(f), FrameBits(g)), i, j);
  }

  // ----- up to three flipped bits

  function Flips(e: seq<bool>): nat { if e == [] then 0 else (if e[0] then 1 else 0) + Flips(e[1..]) }

  lemma {:induction false} ParityIsOdd(e: seq<bool>)
    ensures ParityOf(e) <==> Flips(e) % 2 == 1
    decreases |e|
  {
    if e != [] { ParityIsOdd(e[1..]); }
  }

  lemma {:induction false} NoFlips(e: seq<bool>)
    requires Flips(e) == 0
    ensures forall k :: 0 <= k < |e| ==> !e[k]
    decreases |e|
  {
    if e != [] {
      NoFlips(e[1..]);
      forall k | 0 <= k < |e| ensures !e[k] { if k > 0 { assert e[k] == e[1..][k - 1]; } }
    }
  }

  lemma {:induction false} OneFlip(e: seq<bool>) returns (i: nat)
    requires Flips(e) == 1
    ensures i < |e| && forall k :: 0 <= k < |e| ==> e[k] == (k == i)
    decreases |e|
  {
    if e[0] {
      NoFlips(e[1..]);
      i := 0;
      forall k | 0 <= k < |e| ensures e[k] == (k == i) { if k > 0 { assert e[k] == e[1..][k - 1]; } }
    } else {
      i := OneFlip(e[1..]);
      i := i + 1;
      forall k | 0 <= k < |e| ensures e[k] == (k == i) { if k > 0 { assert e[k] == e[1..][k - 1]; } }
    }
  }

  lemma {:induction false} TwoFlips(e: seq<bool>) returns (i: nat, j: nat)
    requires Flips(e) == 2
    ensures Two(e, i, j)
    decreases |e|
  {
    if e[0] {
      i := 0;
      j := OneFlip(e[1..]);
      j := j + 1;
    } else {
      i, j := TwoFlips(e[1..]);
      i, j := i + 1, j + 1;
    }
    forall k | 0 <= k < |e| ensures e[k] == (k == i || k == j) { if k > 0 { assert e[k] == e[1..][k - 1]; } }
  }

  lemma TwoFlipsDetected(f: seq<Byte>, g: seq<Byte>)
    requires |f| == |g| <= 4095 && Valid(f) && Flips(Damage(FrameBits(f), FrameBits(g))) == 2
    ensures !Valid(g)
  {
    var i, j := TwoFlips(Damage(FrameBits(f), FrameBits(g)));
    TwoFlipsDetectedIff(f, g, i, j);
  }

  lemma NoFlipsSame(f: seq<Byte>, g: seq<Byte>)
    requires |f| == |g| && Flips(Damage(FrameBits(f), FrameBits(g))) == 0
    ensures f == g
  {
    var v, w := FrameBits(f), FrameBits(g);
    NoFlips(Damage(v, w));
    assert forall k :: 0 <= k < |v| ==> Damage(v, w)[k] == (v[k] != w[k]);
    FrameBitsInjective(f, g);
  }

  lemma OddFlipsDetected(f: seq<Byte>, g: seq<Byte>)
    requires |f| == |g| && Valid(f) && Flips(Damage(FrameBits(f), FrameBits(g))) % 2 == 1
    ensures !Valid(g)
  {
    ParityIsOdd(Damage(FrameBits(f), FrameBits(g)));
    OddDamageDetected(f, g);
  }

  lemma FewFlipsDetected(f: seq<Byte>, g: seq<Byte>, n: nat)
    requires |f| == |g| <= 4095 && Valid(f) && n == Flips(Damage(FrameBits(f), FrameBits(g))) && 1 <= n <= 3
    ensures !Valid(g)
  {
    if n == 2 {
      TwoFlipsDetected(f, g);
    } else {
      assert n % 2 == 1;
      OddFlipsDetected(f, g);
    }
  }

  /** Any one, two or three flipped bits, wherever they are, are detected in packets of up to 4095 bytes. */
  lemma UpToThreeDetected(f: seq<Byte>, g: seq<Byte>)
    requires |f| == |g| <= 4095 && Valid(f) && f != g
    requires Flips(Damage(FrameBits(f), FrameBits(g))) <= 3
    ensures !Valid(g)
  {
    var n := Flips(Damage(FrameBits(f), FrameBits(g)));
    if n == 0 { NoFlipsSame(f, g); } else { FewFlipsDetected(f, g, n); }
  }
}
