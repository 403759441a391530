/** `update_crc32` and `update_crc16`: the byte-wise table loops, proved equal to the bit-serial
    register and to long division, and what follows about the errors they detect. */
module Crc {
  import opened ShiftRegister
  import opened CrcTables
  import opened Words

  /** The bits of a byte string, low bit of the first byte first. */
  function MessageBits(data: seq<bv8>): (z: Bits)
    ensures |z| == 8 * |data|
  {
    if data == [] then [] else BitsOf(data[0] as bv32, 8) + MessageBits(data[1..])
  }

  /** The checksum the loops are meant to compute: complement, clock the message in bit by bit,
      complement again. */
  function Checksum(poly: Bits, data: seq<bv8>, start: Bits): (z: Bits)
    requires 0 < |start| == |poly|
    ensures |z| == |start|
  {
    Not(Serial(poly, Not(start), MessageBits(data)))
  }

  function Poly32(): (z: Bits)
    ensures |z| == 32
  {
    BitsOf(POLY_32, 32)
  }

  function Poly16(): (z: Bits)
    ensures |z| == 16
  {
    BitsOf(POLY_16 as bv32, 16)
  }

  // ---------------------------------------------------------------------------------- the byte step

  lemma {:induction false} Steps8(poly: bv32, r: bv32, n: nat)
    requires Holds(poly, n) && Holds(r, n) && 0 < n
    ensures BitsOf(StepWord8(poly, r), n) == Iterate(BitsOf(poly, n), BitsOf(r, n), 8)
  {
    var a := Steps2(poly, r, n);
    var b := Steps2(poly, a, n);
    var c := Steps2(poly, b, n);
    var d := Steps2(poly, c, n);
    var p, x := BitsOf(poly, n), BitsOf(r, n);
    IterateAppend(p, x, 2, 2);
    IterateAppend(p, x, 4, 2);
    IterateAppend(p, x, 6, 2);
  }

  lemma {:induction false} Steps2(poly: bv32, r: bv32, n: nat) returns (s: bv32)
    requires Holds(poly, n) && Holds(r, n) && 0 < n
    ensures s == StepWord(poly, StepWord(poly, r)) && Holds(s, n)
    ensures BitsOf(s, n) == Iterate(BitsOf(poly, n), BitsOf(r, n), 2)
  {
    var q := StepWord(poly, r);
    s := StepWord(poly, q);
    StepHolds(poly, r, n);
    StepHolds(poly, q, n);
    BitsStep(poly, r, n);
    BitsStep(poly, q, n);
    var p, x := BitsOf(poly, n), BitsOf(r, n);
    assert Iterate(p, x, 2) == Iterate(p, Step(p, x), 1) == Iterate(p, Step(p, Step(p, x)), 0);
  }

  lemma {:induction false} LowByteBits(r: bv32, i: nat)
    ensures BitAt(r & 0xff, i) == (i < 8 && BitAt(r, i))
  {
    if i < 8 {
      LowMasks();
      LowByteUnder(r);
    } else {
      NoBitsInByte(r & 0xff, i);
    }
  }

  lemma {:induction false} LowByteUnder(r: bv32)
    ensures Under(r & 0xff, 1) == Under(r, 1) && Under(r & 0xff, 2) == Under(r, 2)
    ensures Under(r & 0xff, 4) == Under(r, 4) && Under(r & 0xff, 8) == Under(r, 8)
    ensures Under(r & 0xff, 16) == Under(r, 16) && Under(r & 0xff, 32) == Under(r, 32)
    ensures Under(r & 0xff, 64) == Under(r, 64) && Under(r & 0xff, 128) == Under(r, 128)
    ensures r & 0xff <= 0xff
  {
  }

  /** The table index, as bits: the register's low byte against the input byte, padded. */
  lemma {:induction false} IndexBits(r: bv32, b: bv32, n: nat)
    requires 8 <= n && b <= 0xff
    ensures BitsOf((r & 0xff) ^ b, n) == Fit(Xor(BitsOf(r, n)[..8], BitsOf(b, 8)), n)
  {
    var x := r & 0xff;
    BitsXor(x, b, n);
    assert |Xor(BitsOf(r, n)[..8], BitsOf(b, 8))| == 8;
    forall i | 0 <= i < n
      ensures BitAt(x, i) == (i < 8 && BitAt(r, i))
      ensures 8 <= i ==> !BitAt(b, i)
    {
      LowByteBits(r, i);
      if 8 <= i {
        NoBitsInByte(b, i);
      }
    }
  }

  /** One pass of the loop is eight bits clocked in, provided the entry `t` is eight steps of the
      index `i`. */
  lemma {:induction false} ByteStep(poly: Bits, r: bv32, b: bv32, i: bv32, t: bv32, s: bv32, n: nat)
    requires n == |poly| && Holds(r, n) && b <= 0xff && 16 <= n
    requires i == (r & 0xff) ^ b && s == (r >> 8) ^ t
    requires BitsOf(t, n) == Iterate(poly, BitsOf(i, n), 8)
    ensures BitsOf(s, n) == Serial(poly, BitsOf(r, n), BitsOf(b, 8))
  {
    IndexIs(r, b, i, n);
    MovedIs(r, t, s, n);
    ByteBitsStep(poly, BitsOf(r, n), BitsOf(b, 8), BitsOf(i, n), BitsOf(t, n), BitsOf(s, n));
  }

  lemma {:induction false} IndexIs(r: bv32, b: bv32, i: bv32, n: nat)
    requires 8 <= n && b <= 0xff && i == (r & 0xff) ^ b
    ensures BitsOf(i, n) == Fit(Xor(BitsOf(r, n)[..8], BitsOf(b, 8)), n)
  {
    IndexBits(r, b, n);
  }

  lemma {:induction false} MovedIs(r: bv32, t: bv32, s: bv32, n: nat)
    requires 8 <= n && Holds(r, n) && s == (r >> 8) ^ t
    ensures BitsOf(s, n) == Xor(BitsOf(r, n)[8..] + Zeros(8), BitsOf(t, n))
  {
    BitsShift8(r, n);
    BitsXor(r >> 8, t, n);
  }

  /** The same of the bits alone. */
  lemma {:induction false} ByteBitsStep(poly: Bits, r: Bits, b: Bits, i: Bits, t: Bits, s: Bits)
    requires |r| == |poly| == |t| >= 8 && |b| == 8
    requires i == Fit(Xor(r[..8], b), |r|) && t == Iterate(poly, i, 8)
    requires s == Xor(r[8..] + Zeros(8), t)
    ensures s == Serial(poly, r, b)
  {
    SplitLow(poly, r, b);
  }

  lemma {:induction false} MessageBitsOne(b: bv8)
    ensures MessageBits([b]) == BitsOf(b as bv32, 8)
  {
    assert [b][1..] == [];
  }

  lemma {:induction false} MessageBitsAppend(a: seq<bv8>, b: seq<bv8>)
    ensures MessageBits(a + b) == MessageBits(a) + MessageBits(b)
  {
    if a == [] {
      assert a + b == b;
    } else {
      assert (a + b)[1..] == a[1..] + b;
      MessageBitsAppend(a[1..], b);
    }
  }

  lemma {:induction false} ClockByte(poly: Bits, start: Bits, data: seq<bv8>, p: nat)
    requires 0 < |start| == |poly| && p < |data|
    ensures Serial(poly, start, MessageBits(data[..p + 1]))
         == Serial(poly, Serial(poly, start, MessageBits(data[..p])), BitsOf(data[p] as bv32, 8))
  {
    assert data[..p + 1] == data[..p] + [data[p]];
    MessageBitsAppend(data[..p], [data[p]]);
    MessageBitsOne(data[p]);
    SerialAppend(poly, start, MessageBits(data[..p]), BitsOf(data[p] as bv32, 8));
  }

  // ---------------------------------------------------------------------------------- the two loops

  /** The read `table_32[i]`. */
  method Lookup32(i: bv8) returns (t: bv32)
    ensures BitsOf(t, 32) == Iterate(Poly32(), BitsOf(i as bv32, 32), 8)
  {
    t := Table32(i);
    Table32IsSteps(i);
    Steps8(POLY_32, i as bv32, 32);
  }

  /** The read `table_16[i]`. */
  method Lookup16(i: bv8) returns (t: bv16)
    ensures BitsOf(t as bv32, 16) == Iterate(Poly16(), BitsOf(i as bv32, 16), 8)
  {
    t := Table16(i);
    Table16IsSteps(i);
    Steps8(POLY_16 as bv32, i as bv32, 16);
  }

  lemma {:induction false} Index8(r: bv32, b: bv8, i: bv8)
    requires i == ((r & 0xff) as bv8) ^ b
    ensures i as bv32 == (r & 0xff) ^ (b as bv32)
  {
  }

  /** The body of the first loop: one byte clocked in. */
  method Advance32(r: bv32, b: bv8) returns (s: bv32)
    ensures BitsOf(s, 32) == Serial(Poly32(), BitsOf(r, 32), BitsOf(b as bv32, 8))
  {
    var i := ((r & 0xff) as bv8) ^ b;
    var t := Lookup32(i);
    s := (r >> 8) ^ t;
    Index8(r, b, i);
    ByteStep(Poly32(), r, b as bv32, i as bv32, t, s, 32);
  }

  /** The body of the second loop. */
  method Advance16(r: bv16, b: bv8) returns (s: bv16)
    ensures BitsOf(s as bv32, 16) == Serial(Poly16(), BitsOf(r as bv32, 16), BitsOf(b as bv32, 8))
  {
    var i := ((r & 0xff) as bv8) ^ b;
    var t := Lookup16(i);
    s := (r >> 8) ^ t;
    Widen(r, b, i, t, s);
    ByteStep(Poly16(), r as bv32, b as bv32, i as bv32, t as bv32, s as bv32, 16);
  }

  lemma {:induction false} BitsNot32(r: bv32)
    ensures BitsOf(!r, 32) == Not(BitsOf(r, 32))
  {
    Complement32(r);
    BitsNot(r, 32);
  }

  lemma {:induction false} Complement32(r: bv32)
    ensures !r == r ^ 0xffff_ffff
  {
  }

  /** `update_crc32`. */
  method UpdateCrc32(data: seq<bv8>, start: bv32) returns (crc: bv32)
    ensures BitsOf(crc, 32) == Checksum(Poly32(), data, BitsOf(start, 32))
  {
    BitsNot32(start);
    ghost var first := Not(BitsOf(start, 32));
    var r := !start;
    var p := 0;
    assert data[..0] == [];
    while p != |data|
      invariant 0 <= p <= |data|
      invariant BitsOf(r, 32) == Serial(Poly32(), first, MessageBits(data[..p]))
      decreases |data| - p
    {
      r := Advance32(r, data[p]);
      ClockByte(Poly32(), first, data, p);
      p := p + 1;
    }
    assert data[..p] == data;
    BitsNot32(r);
    crc := !r;
  }

  lemma {:induction false} Widen(r: bv16, b: bv8, i: bv8, t: bv16, s: bv16)
    requires i == ((r & 0xff) as bv8) ^ b && s == (r >> 8) ^ t
    ensures i as bv32 == (r as bv32 & 0xff) ^ (b as bv32)
    ensures s as bv32 == (r as bv32 >> 8) ^ (t as bv32)
    ensures r as bv32 <= 0xffff
  {
  }

  lemma {:induction false} Complement16(r: bv16)
    ensures (!r) as bv32 == (r as bv32 ^ 0xffff_ffff) & 0xffff
  {
  }

  lemma {:induction false} BitsNot16(r: bv16)
    ensures BitsOf((!r) as bv32, 16) == Not(BitsOf(r as bv32, 16))
  {
    Complement16(r);
    BitsNotLow16(r as bv32, (!r) as bv32);
  }

  lemma {:induction false} BitsNotLow16(x: bv32, z: bv32)
    requires z == (x ^ 0xffff_ffff) & 0xffff
    ensures BitsOf(z, 16) == Not(BitsOf(x, 16))
  {
    BitsNot(x, 16);
    BitsLow16(x ^ 0xffff_ffff, z);
  }

  lemma {:induction false} BitsLow16(x: bv32, y: bv32)
    requires y == x & 0xffff
    ensures BitsOf(y, 16) == BitsOf(x, 16)
  {
    var a, b := x >> 8, y >> 8;
    Low16Bytes(x);
    forall i | 0 <= i < 16 ensures BitAt(y, i) == BitAt(x, i) {
      if i < 8 {
        LowByteBits(x, i);
        LowByteBits(y, i);
      } else {
        BitAtShift8(x, i - 8);
        BitAtShift8(y, i - 8);
        LowByteBits(a, i - 8);
        LowByteBits(b, i - 8);
      }
    }
  }

  lemma {:induction false} Low16Bytes(x: bv32)
    ensures (x & 0xffff) & 0xff == x & 0xff
    ensures ((x & 0xffff) >> 8) & 0xff == (x >> 8) & 0xff
  {
  }

  /** `update_crc16`. */
  method UpdateCrc16(data: seq<bv8>, start: bv16) returns (crc: bv16)
    ensures BitsOf(crc as bv32, 16) == Checksum(Poly16(), data, BitsOf(start as bv32, 16))
  {
    BitsNot16(start);
    ghost var first := Not(BitsOf(start as bv32, 16));
    var r := !start;
    var p := 0;
    assert data[..0] == [];
    while p != |data|
      invariant 0 <= p <= |data|
      invariant BitsOf(r as bv32, 16) == Serial(Poly16(), first, MessageBits(data[..p]))
      decreases |data| - p
    {
      r := Advance16(r, data[p]);
      ClockByte(Poly16(), first, data, p);
      p := p + 1;
    }
    assert data[..p] == data;
    BitsNot16(r);
    crc := !r;
  }
}
