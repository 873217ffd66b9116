/** Splitting a long transfer into requests (rtu_client.go). */
module Requests {
  import opened Bytes
  import opened Modbus
  import opened Handler
  import opened Transactions

  function Ceiling(a: nat, b: nat): nat
    requires b > 0
  {
    (a + b - 1) / b
  }

  type HeaderMaker = (nat, nat) -> Pdu

  /** The headers of code f, where they can be made. */
  function HeadersOf(f: Byte): HeaderMaker {
    (address: nat, q: nat) =>
      if address + q <= MAX_RANGE && MakeRequestHeader(f, address, q).Ok? then MakeRequestHeader(f, address, q).value else []
  }

  /** A maker of headers that say what they were made for. */
  ghost predicate Faithful(f: Byte, make: HeaderMaker) {
    forall address: nat, q: nat {:trigger make(address, q)} ::
      address + q <= MAX_RANGE && 0 < q <= MaxPerPacket(f) ==> Asks(make(address, q), f, address, q)
  }

  /** The request p is for q values of code f from `address` on. */
  ghost predicate Asks(p: Pdu, f: Byte, address: nat, q: nat) {
    |p| >= 3 && FunctionCode(p) == f && Address(p) == address && RequestCount(p).Ok? && RequestCount(p).value == q
  }

  lemma HeadersAreFaithful(f: Byte)
    ensures Faithful(f, HeadersOf(f))
  {
    var make := HeadersOf(f);
    forall address: nat, q: nat | address + q <= MAX_RANGE && 0 < q <= MaxPerPacket(f)
      ensures Asks(make(address, q), f, address, q)
    {
      HeaderMade(f, address, q);
      HeaderFields(f, address, q);
    }
  }

  /** The headers for `quantity` values from `address` on, `max` at a time. */
  function Split(make: HeaderMaker, address: nat, quantity: nat, max: nat): seq<Pdu>
    requires 0 < max
    decreases quantity
  {
    if quantity == 0 then []
    else var q := Min(quantity, max); [make(address, q)] + Split(make, address + q, quantity - q, max)
  }

  lemma SplitGrows(headers: seq<Pdu>, make: HeaderMaker, address: nat, left: nat, max: nat, p: Pdu)
    requires 0 < max && left > 0 && p == make(address, Min(left, max))
    ensures headers + Split(make, address, left, max) ==
            (headers + [p]) + Split(make, address + Min(left, max), left - Min(left, max), max)
  {}

  /** `make` makes the headers of code f. */
  ghost predicate Makes(f: Byte, make: HeaderMaker) {
    forall address: Word, q: Word {:trigger MakeRequestHeader(f, address, q)} ::
      address + q <= MAX_RANGE && MakeRequestHeader(f, address, q).Ok? ==>
        make(address, q) == MakeRequestHeader(f, address, q).value
  }

  /** The request header, which can be made exactly for a packet's worth of values. */
  method MakeHeader(f: Byte, address: Word, q: Word, ghost make: HeaderMaker) returns (r: Result<Pdu>)
    requires address + q <= MAX_RANGE && Makes(f, make)
    ensures r.Ok? <==> 0 < q <= MaxPerPacket(f)
    ensures r.Ok? ==> r.value == make(address, q)
  {
    HeaderMade(f, address, q);
    r := MakeRequestHeader(f, address, q);
  }

  /** The loop that splits, for a range that exists. */
  method SplitRange(f: Byte, address: Word, quantity: Word, max: Word, before: seq<Pdu>, ghost make: HeaderMaker)
    returns (r: Result<seq<Pdu>>)
    requires address + quantity <= MAX_RANGE && Makes(f, make)
    ensures r.Ok? <==> quantity == 0 || 0 < Min(max, quantity) <= MaxPerPacket(f)
    ensures r.Ok? ==> r.value == before + if quantity == 0 then [] else Split(make, address, quantity, Min(max, quantity))
  {
    var a: Word, left: Word, q: Word, headers := address, quantity, max, before;
    ghost var m := if Min(max, quantity) == 0 then 1 else Min(max, quantity);
    ghost var all := before + Split(make, address, quantity, m);
    while left > 0
      invariant a + left == address + quantity
      invariant if left == quantity then q == max && headers == before else 0 < m <= MaxPerPacket(f) && max > 0
      invariant 0 < left < quantity ==> q == m == max
      invariant headers + Split(make, a, left, m) == all
    {
      if left < max {
        q := left;
      }
      var pdu := MakeHeader(f, a, q, make);
      if pdu.Err? {
        return Err(pdu.error);
      }
      SplitGrows(headers, make, a, left, m, pdu.value);
      headers := headers + [pdu.value];
      a, left := a + q, left - q;
    }
    r := Ok(headers);
  }

  /**
   MakePDURequestHeadersSized. It fails exactly when the range does not exist or the first request cannot be made: an
   unsupported code, a maximum of zero, or one over what a packet carries.
   */
  method MakeRequestHeadersSized(f: Byte, address: Word, quantity: Word, max: Word, before: seq<Pdu>) returns (r: Result<seq<Pdu>>)
    ensures r.Ok? <==> address + quantity <= MAX_RANGE && (quantity == 0 || 0 < Min(max, quantity) <= MaxPerPacket(f))
    ensures r.Ok? ==> r.value == before + if quantity == 0 then [] else Split(HeadersOf(f), address, quantity, Min(max, quantity))
  {
    if address + quantity > MAX_RANGE {
      return Err(Other);
    }
    r := SplitRange(f, address, quantity, max, before, HeadersOf(f));
  }

  /**
   The requests tile the range from `address` to `end`: each starts where the one before it ended, all but the last carry
   `max` values, and the last at most that many.
   */
  ghost predicate Tiles(f: Byte, headers: seq<Pdu>, address: nat, end: nat, max: nat)
    decreases |headers|
  {
    if headers == [] then address == end
    else
      var p := headers[0];
      && |p| >= 3 && RequestCount(p).Ok?
      && var q := RequestCount(p).value;
         && Asks(p, f, address, q) && 0 < q <= max && (|headers| > 1 ==> q == max)
         && Tiles(f, headers[1..], address + q, end, max)
  }

  lemma TilesCons(f: Byte, p: Pdu, rest: seq<Pdu>, address: nat, q: nat, end: nat, max: nat)
    requires Asks(p, f, address, q)
    requires 0 < q <= max && (rest != [] ==> q == max)
    requires Tiles(f, rest, address + q, end, max)
    ensures Tiles(f, [p] + rest, address, end, max)
  {
    assert ([p] + rest)[1..] == rest;
  }

  lemma {:induction false} SplitTiles(f: Byte, make: HeaderMaker, address: nat, quantity: nat, max: nat)
    requires 0 < max <= MaxPerPacket(f) && address + quantity <= MAX_RANGE && Faithful(f, make)
    ensures Tiles(f, Split(make, address, quantity, max), address, address + quantity, max)
    decreases quantity
  {
    if quantity > 0 {
      var q := Min(quantity, max);
      SplitTiles(f, make, address + q, quantity - q, max);
      assert Asks(make(address, q), f, address, q);
      TilesCons(f, make(address, q), Split(make, address + q, quantity - q, max), address, q, address + quantity, max);
    }
  }

  lemma {:induction false} SplitCount(make: HeaderMaker, address: nat, quantity: nat, max: nat)
    requires 0 < max
    ensures |Split(make, address, quantity, max)| == Ceiling(quantity, max)
    decreases quantity
  {
    if quantity > 0 {
      var q := Min(quantity, max);
      SplitCount(make, address + q, quantity - q, max);
      CeilingStep(quantity, max);
    }
  }

  lemma CeilingStep(a: nat, b: nat)
    requires 0 < b && 0 < a
    ensures Ceiling(a, b) == 1 + Ceiling(a - Min(a, b), b)
  {
    if a <= b {
      QuotientIs(a + b - 1, b, 1);
      QuotientIs(b - 1, b, 0);
    } else {
      var k := (a - 1) / b;
      QuotientBounds(a - 1, b);
      TimesNext(k, b);
      QuotientIs(a + b - 1, b, k + 1);
    }
  }

  lemma TimesNext(k: int, b: int)
    ensures (k + 1) * b == k * b + b
  {}

  lemma QuotientBounds(x: nat, b: nat)
    requires 0 < b
    ensures (x / b) * b <= x < (x / b) * b + b
  {
    assert x == b * (x / b) + x % b;
  }

  lemma MulMonotone(a: int, b: int, c: nat)
    ensures a <= b ==> a * c <= b * c
  {}

  lemma QuotientIs(x: nat, b: nat, k: nat)
    requires 0 < b && k * b <= x < k * b + b
    ensures x / b == k
  {
    var d := x / b;
    QuotientBounds(x, b);
    TimesNext(d, b);
    TimesNext(k, b);
    MulMonotone(d + 1, k, b);
    MulMonotone(k + 1, d, b);
  }

  /** Request i of the list transfers value x. */
  ghost predicate Transfers(headers: seq<Pdu>, i: nat, x: nat) {
    && i < |headers| && |headers[i]| >= 3 && RequestCount(headers[i]).Ok?
    && Address(headers[i]) <= x < Address(headers[i]) + RequestCount(headers[i]).value
  }

  lemma {:induction false} TilesOnce(f: Byte, headers: seq<Pdu>, address: nat, end: nat, max: nat, i: nat, j: nat, x: nat)
    requires Tiles(f, headers, address, end, max) && Transfers(headers, i, x)
    ensures address <= x < end
    ensures Transfers(headers, j, x) ==> i == j
    decreases |headers|
  {
    var q := RequestCount(headers[0]).value;
    TilesForward(f, headers[1..], address + q, end, max);
    if i > 0 {
      TilesOnce(f, headers[1..], address + q, end, max, i - 1, if j > 0 then j - 1 else 0, x);
    } else if j > 0 && Transfers(headers, j, x) {
      TilesOnce(f, headers[1..], address + q, end, max, j - 1, j - 1, x);
    }
  }

  lemma {:induction false} TilesForward(f: Byte, headers: seq<Pdu>, address: nat, end: nat, max: nat)
    requires Tiles(f, headers, address, end, max)
    ensures address <= end
    decreases |headers|
  {
    if headers != [] {
      TilesForward(f, headers[1..], address + RequestCount(headers[0]).value, end, max);
    }
  }

  lemma {:induction false} TilesReach(f: Byte, headers: seq<Pdu>, address: nat, end: nat, max: nat, x: nat) returns (i: nat)
    requires Tiles(f, headers, address, end, max) && address <= x < end
    ensures Transfers(headers, i, x)
    decreases |headers|
  {
    var q := RequestCount(headers[0]).value;
    if x < address + q {
      i := 0;
    } else {
      var k := TilesReach(f, headers[1..], address + q, end, max, x);
      i := k + 1;
    }
  }

  lemma TilesCover(f: Byte, headers: seq<Pdu>, address: nat, end: nat, max: nat, x: nat)
    requires Tiles(f, headers, address, end, max)
    ensures address <= x < end <==> exists i: nat :: Transfers(headers, i, x)
    ensures forall i: nat, j: nat :: Transfers(headers, i, x) && Transfers(headers, j, x) ==> i == j
  {
    forall i: nat, j: nat | Transfers(headers, i, x)
      ensures address <= x < end && (Transfers(headers, j, x) ==> i == j)
    {
      TilesOnce(f, headers, address, end, max, i, j, x);
    }
    if address <= x < end {
      var i := TilesReach(f, headers, address, end, max, x);
    }
  }

  /**
   Every value of the range is transferred by exactly one of the ceil(quantity / max) requests, and no other value by any.
   The headers the library makes are faithful (HeadersAreFaithful), so this holds of what MakeRequestHeadersSized returns.
   */
  lemma SplitCovers(f: Byte, make: HeaderMaker, address: nat, quantity: nat, max: nat, x: nat)
    requires 0 < max <= MaxPerPacket(f) && address + quantity <= MAX_RANGE && Faithful(f, make)
    ensures var headers := Split(make, address, quantity, max);
            && |headers| == Ceiling(quantity, max)
            && (address <= x < address + quantity <==> exists i: nat :: Transfers(headers, i, x))
            && (forall i: nat, j: nat :: Transfers(headers, i, x) && Transfers(headers, j, x) ==> i == j)
  {
    SplitTiles(f, make, address, quantity, max);
    SplitCount(make, address, quantity, max);
    TilesCover(f, Split(make, address, quantity, max), address, address + quantity, max, x);
  }

  // ----- requests limited to a PDU size

  /** The PDU of code f that carries q values: the write request, or the reply to the read request. */
  function CarrierSize(f: Byte, q: nat): nat {
    if IsSingle(f) then 5 else if IsWriteToServer(f) then 6 + DataLength(f, q) else 2 + DataLength(f, q)
  }

  /** With sizes from ten on, every PDU that carries values fits in the size asked for, and at least one value fits. */
  lemma SizedFits(f: Byte, size: int, q: nat)
    requires Supported(f) && size >= 10
    ensures 1 <= MaxPerPacketSized(f, size) <= MaxPerPacket(f)
    ensures q <= MaxPerPacketSized(f, size) ==> CarrierSize(f, q) <= Min(size, MAX_PDU_SIZE)
  {
    var s := Min(size, MAX_PDU_SIZE);
    assert s % 0x1_0000 == s;
    if f <= 2 {
      SizedBools(s, 2, q);
    } else if f == WRITE_MULTIPLE_COILS {
      SizedBools(s, 6, q);
    }
  }

  lemma SizedBools(s: nat, offset: nat, q: nat)
    requires 10 <= s <= MAX_PDU_SIZE && (offset == 2 || offset == 6)
    ensures var n := (if s == MAX_PDU_SIZE then s - 1 else s) - offset;
            1 <= n * 8 % 0x1_0000 == n * 8 <= 8 * (252 - offset) && (q <= n * 8 ==> offset + (q + 7) / 8 <= s)
  {}

  /** The size is taken modulo 2^16: a negative one can allow more values than a packet carries. */
  lemma NegativeSizeOverflows()
    ensures MaxPerPacketSized(READ_HOLDING_REGISTERS, -1) == 32766 > MaxPerPacket(READ_HOLDING_REGISTERS)
  {}

  /** Sizes, modulo 2^16, for which the number of values stays within a packet; that of bools wraps around once more. */
  predicate WrapsWithin(f: Byte, s: Word) {
    if IsUint16(f) then s <= MAX_PDU_SIZE
    else if f == WRITE_MULTIPLE_COILS then s < 8 || s == MAX_PDU_SIZE || (s - 6) % 0x2000 <= 246
    else s < 4 || s == MAX_PDU_SIZE || (s - 2) % 0x2000 <= 250
  }

  /** Exactly when a size never allows more values than a packet carries: every size of zero or more is among these. */
  lemma SizedWithinPacket(f: Byte, size: int)
    requires Supported(f)
    ensures MaxPerPacketSized(f, size) <= MaxPerPacket(f) <==> IsSingle(f) || size >= 0 || WrapsWithin(f, size % 0x1_0000)
  {
    var s := (if size > MAX_PDU_SIZE then MAX_PDU_SIZE else size) % 0x1_0000;
    if size >= 0 { assert s == Min(size, MAX_PDU_SIZE); }
    if f <= 2 {
      BoolsWithin(s, 2, 4);
    } else if f == WRITE_MULTIPLE_COILS {
      BoolsWithin(s, 6, 8);
    }
  }

  /** The number of bools for size s behind `offset` bytes; sizes under `least` allow eight. */
  lemma BoolsWithin(s: Word, offset: nat, least: nat)
    requires offset + 2 == least && (offset == 2 || offset == 6)
    ensures s >= least ==>
              var n := ((if s == MAX_PDU_SIZE then s - 1 else s) - offset) * 8 % 0x1_0000;
              n <= 8 * (252 - offset) <==> s == MAX_PDU_SIZE || (s - offset) % 0x2000 <= 252 - offset
    ensures least <= s <= MAX_PDU_SIZE ==> (s - offset) % 0x2000 == s - offset
  {
    EightfoldWraps((if s == MAX_PDU_SIZE then s - 1 else s) - offset);
  }

  lemma EightfoldWraps(n: int)
    ensures n >= 0 ==> n * 8 % 0x1_0000 == 8 * (n % 0x2000)
  {
    var d, m := n / 0x2000, n % 0x2000;
    assert n == d * 0x2000 + m;
    RemainderIs(n * 8, d, 8 * m);
  }

  lemma RemainderIs(x: int, d: int, m: int)
    requires x == d * 0x1_0000 + m && 0 <= m < 0x1_0000
    ensures x % 0x1_0000 == m
  {}

  /** What the requests split for a PDU size ask for fits in that size. */
  lemma {:induction false} TilesFit(f: Byte, headers: seq<Pdu>, address: nat, end: nat, size: int, i: nat)
    requires Supported(f) && size >= 10 && i < |headers|
    requires Tiles(f, headers, address, end, MaxPerPacketSized(f, size))
    ensures RequestCount(headers[i]).Ok? && CarrierSize(f, RequestCount(headers[i]).value) <= Min(size, MAX_PDU_SIZE)
    decreases |headers|
  {
    var q := RequestCount(headers[0]).value;
    if i == 0 {
      SizedFits(f, size, q);
    } else {
      TilesFit(f, headers[1..], address + q, end, size, i - 1);
    }
  }
}
