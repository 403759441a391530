/** What the checksums guarantee: composition, equality with long division, which errors each one
    detects and which it does not, the parity law of the 16-bit one and the residue of the 32-bit one. */
module CrcLaws {
  import opened ShiftRegister
  import opened CrcTables
  import opened Words
  import opened Crc

  // ---------------------------------------------------------------------------------- any register

  /** Updating with one message and then another is updating with their concatenation. */
  lemma {:induction false} UpdatesCompose(poly: Bits, a: seq<bv8>, b: seq<bv8>, start: Bits)
    requires 0 < |start| == |poly|
    ensures Checksum(poly, a + b, start) == Checksum(poly, b, Checksum(poly, a, start))
  {
    MessageBitsAppend(a, b);
    SerialAppend(poly, Not(start), MessageBits(a), MessageBits(b));
    assert Not(Checksum(poly, a, start)) == Serial(poly, Not(start), MessageBits(a));
  }

  /** The complement of the checksum is the remainder of the message, moved up by the width with the
      complemented start folded in, on long division by the generator. */
  lemma {:induction false} ChecksumIsRemainder(poly: Bits, w: nat, data: seq<bv8>, start: Bits)
    requires |start| == |poly| && Width(poly, w) && Within(Not(start), w + 8 * |data|)
    ensures Not(Checksum(poly, data, start))
         == Fit(Remainder(poly, w, Dividend(Not(start), MessageBits(data), w)), |poly|)
  {
    SerialIsDivision(poly, w, Not(start), MessageBits(data));
    assert Not(Checksum(poly, data, start)) == Serial(poly, Not(start), MessageBits(data));
  }

  /** The bits in which two messages of equal length differ. */
  function Difference(a: seq<bv8>, b: seq<bv8>): (z: Bits)
    requires |a| == |b|
    ensures |z| == 8 * |a|
  {
    Xor(MessageBits(a), MessageBits(b))
  }

  lemma {:induction false} SameChecksum(poly: Bits, a: seq<bv8>, b: seq<bv8>, start: Bits)
    requires 0 < |start| == |poly| && |a| == |b|
    ensures Checksum(poly, a, start) == Checksum(poly, b, start)
       <==> AllZero(Serial(poly, Zeros(|poly|), Difference(a, b)))
  {
    Collide(poly, Not(start), MessageBits(a), MessageBits(b));
    NotInjective(Serial(poly, Not(start), MessageBits(a)), Serial(poly, Not(start), MessageBits(b)));
  }

  lemma {:induction false} NotInjective(x: Bits, y: Bits)
    requires |x| == |y|
    ensures Not(x) == Not(y) <==> x == y
  {
    if Not(x) == Not(y) {
      forall i | 0 <= i < |x| ensures x[i] == y[i] {
        assert Not(x)[i] == !x[i];
        assert Not(y)[i] == !y[i];
      }
    }
  }

  /** Exactly which errors go unseen: those whose difference the generator divides. */
  lemma {:induction false} UndetectedIffDivisible(poly: Bits, w: nat, a: seq<bv8>, b: seq<bv8>, start: Bits)
    requires |start| == |poly| && Width(poly, w) && |a| == |b|
    ensures Checksum(poly, a, start) == Checksum(poly, b, start)
       <==> AllZero(Remainder(poly, w, Difference(a, b) + Zeros(w)))
  {
    var d, o := Difference(a, b), Zeros(|poly|);
    SameChecksum(poly, a, b, start);
    SerialIsDivision(poly, w, o, d);
    assert Dividend(o, d, w) == d + Zeros(w);
    FitZero(Remainder(poly, w, d + Zeros(w)), |poly|);
  }

  lemma {:induction false} FitZero(x: Bits, n: nat)
    requires |x| <= n
    ensures AllZero(Fit(x, n)) <==> AllZero(x)
  {
    var y := Fit(x, n);
    if AllZero(y) {
      forall i | 0 <= i < |x| ensures !x[i] {
        assert !y[i];
      }
      assert x == Zeros(|x|);
    }
  }

  lemma {:induction false} MessageBitsDetermine(a: seq<bv8>, b: seq<bv8>)
    requires |a| == |b| && MessageBits(a) == MessageBits(b)
    ensures a == b
  {
    if a != [] {
      var x, y := MessageBits(a), MessageBits(b);
      assert x[..8] == BitsOf(a[0] as bv32, 8) && x[8..] == MessageBits(a[1..]);
      assert y[..8] == BitsOf(b[0] as bv32, 8) && y[8..] == MessageBits(b[1..]);
      SameByte(a[0], b[0]);
      MessageBitsDetermine(a[1..], b[1..]);
      assert a == [a[0]] + a[1..] && b == [b[0]] + b[1..];
    }
  }

  lemma {:induction false} SameByte(a: bv8, b: bv8)
    requires BitsOf(a as bv32, 8) == BitsOf(b as bv32, 8)
    ensures a == b
  {
    BitsDetermine(a as bv32, b as bv32, 8);
    Narrow(a, b);
  }

  lemma {:induction false} Narrow(a: bv8, b: bv8)
    requires a as bv32 == b as bv32
    ensures a == b
  {
  }

  lemma {:induction false} NoDifference(a: seq<bv8>, b: seq<bv8>)
    requires |a| == |b|
    ensures AllZero(Difference(a, b)) <==> a == b
  {
    XorZero(MessageBits(a), MessageBits(b));
    if AllZero(Difference(a, b)) {
      MessageBitsDetermine(a, b);
    }
  }

  lemma {:induction false} BurstSeen(poly: Bits, w: nat, a: seq<bv8>, b: seq<bv8>, start: Bits, lo: nat, hi: nat)
    requires |start| == |poly| && Width(poly, w) && |a| == |b|
    requires Inside(Difference(a, b), lo, hi) && hi - lo <= w
    ensures Checksum(poly, a, start) == Checksum(poly, b, start) <==> a == b
  {
    SameChecksum(poly, a, b, start);
    Burst(poly, w, Zeros(|poly|), Difference(a, b), lo, hi);
    NoDifference(a, b);
  }

  lemma {:induction false} BlindSpot(poly: Bits, w: nat, a: seq<bv8>, b: seq<bv8>, start: Bits, lo: nat)
    requires |start| == |poly| && Width(poly, w) && |a| == |b|
    requires Inside(Difference(a, b), lo, lo + w + 1)
    ensures Checksum(poly, a, start) == Checksum(poly, b, start)
       <==> a == b || Difference(a, b)[lo..lo + w + 1] == Divisor(poly, w)
  {
    SameChecksum(poly, a, b, start);
    BurstOneMore(poly, w, Zeros(|poly|), Difference(a, b), lo);
    NoDifference(a, b);
  }

  // ---------------------------------------------------------------------------------- the two polynomials

  lemma {:induction false} ByteBits(b: bv32)
    ensures BitsOf(b, 8) == [Under(b, 1), Under(b, 2), Under(b, 4), Under(b, 8),
                             Under(b, 16), Under(b, 32), Under(b, 64), Under(b, 128)]
  {
    LowMasks();
  }

  lemma {:induction false} HalfWordBits(r: bv32, l: bv32, h: bv32)
    requires r <= 0xffff && l == r & 0xff && h == r >> 8
    ensures BitsOf(r, 16) == BitsOf(l, 8) + BitsOf(h, 8)
  {
    forall i | 0 <= i < 16
      ensures i < 8 ==> BitAt(r, i) == BitAt(l, i)
      ensures 8 <= i ==> BitAt(r, i) == BitAt(h, i - 8)
    {
      LowByteBits(r, i);
      if 8 <= i {
        BitAtShift8(r, i - 8);
      }
    }
  }

  lemma {:induction false} Width32()
    ensures Width(Poly32(), 32)
  {
    BitAtShift8(POLY_32, 23);
    BitAtShift8(POLY_32 >> 8, 15);
    BitAtShift8(POLY_32 >> 8 >> 8, 7);
    assert POLY_32 >> 8 >> 8 >> 8 == 0xed;
    LowMasks();
    assert Under(0xed, 128);
    assert BitAt(POLY_32, 31);
  }

  /** The 16-bit table's polynomial has three bits: 0, 5 and 12. */
  lemma {:induction false} Poly16Bits()
    ensures Poly16() == [true, false, false, false, false, true, false, false,
                         false, false, false, false, true, false, false, false]
  {
    HalfWordBits(0x1021, 0x21, 0x10);
    ByteBits(0x21);
    ByteBits(0x10);
  }

  lemma {:induction false} Width16()
    ensures Width(Poly16(), 13)
  {
    Poly16Bits();
  }

  // ---------------------------------------------------------------------------------- errors, 32 bits

  /** Any error confined to 32 consecutive bits, at any bit position of a message of any length, changes
      the 32-bit checksum. */
  lemma {:induction false} Burst32(a: seq<bv8>, b: seq<bv8>, start: bv32, lo: nat, hi: nat)
    requires |a| == |b| && Inside(Difference(a, b), lo, hi) && hi - lo <= 32
    ensures Checksum(Poly32(), a, BitsOf(start, 32)) == Checksum(Poly32(), b, BitsOf(start, 32)) <==> a == b
  {
    Width32();
    BurstSeen(Poly32(), 32, a, b, BitsOf(start, 32), lo, hi);
  }

  /** Thirty-two is the limit: of the errors confined to 33 consecutive bits, exactly the generator goes
      unseen. */
  lemma {:induction false} BlindSpot32(a: seq<bv8>, b: seq<bv8>, start: bv32, lo: nat)
    requires |a| == |b| && Inside(Difference(a, b), lo, lo + 33)
    ensures Checksum(Poly32(), a, BitsOf(start, 32)) == Checksum(Poly32(), b, BitsOf(start, 32))
       <==> a == b || Difference(a, b)[lo..lo + 33] == [true] + Poly32()
  {
    Width32();
    BlindSpot(Poly32(), 32, a, b, BitsOf(start, 32), lo);
    assert Poly32()[..32] == Poly32();
  }

  function LowByte(c: bv32): bv8 {
    (c & 0xff) as bv8
  }

  /** A word as the protocol stores it: `n` bytes, low byte first. */
  function LittleEndian(c: bv32, n: nat): (z: seq<bv8>)
    ensures |z| == n
    decreases n
  {
    if n == 0 then [] else [LowByte(c)] + LittleEndian(c >> 8, n - 1)
  }

  lemma {:induction false} SplitWord(r: bv32, h: bv32, n: nat)
    requires 8 <= n && h == r >> 8
    ensures BitsOf(r, n) == BitsOf(LowByte(r) as bv32, 8) + BitsOf(h, n - 8)
  {
    var l := r & 0xff;
    LowByteWord(r);
    forall i | 0 <= i < n
      ensures i < 8 ==> BitAt(r, i) == BitAt(l, i)
      ensures 8 <= i ==> BitAt(r, i) == BitAt(h, i - 8)
    {
      LowByteBits(r, i);
      if 8 <= i {
        BitAtShift8(r, i - 8);
      }
    }
  }

  lemma {:induction false} LowByteWord(c: bv32)
    ensures LowByte(c) as bv32 == c & 0xff
  {
  }

  lemma {:induction false} LittleEndianBits(c: bv32, n: nat)
    ensures MessageBits(LittleEndian(c, n)) == BitsOf(c, 8 * n)
    decreases n
  {
    if n > 0 {
      var h := c >> 8;
      var rest := LittleEndian(h, n - 1);
      LittleEndianBits(h, n - 1);
      SplitWord(c, h, 8 * n);
      MessageBitsAppend([LowByte(c)], rest);
      MessageBitsOne(LowByte(c));
    }
  }

  lemma {:induction false} OnesRun()
    ensures Iterate(Poly32(), BitsOf(0xffff_ffff, 32), 32) == BitsOf(0xdebb_20e3, 32)
  {
    var p, x := Poly32(), BitsOf(0xffff_ffff, 32);
    Steps8(POLY_32, 0xffff_ffff, 32);
    Steps8(POLY_32, 0x2dfd_1072, 32);
    Steps8(POLY_32, 0xbe26_ed00, 32);
    Steps8(POLY_32, 0x00be_26ed, 32);
    EightSteps();
    IterateAppend(p, x, 8, 8);
    IterateAppend(p, x, 16, 8);
    IterateAppend(p, x, 24, 8);
  }

  lemma {:induction false} EightSteps()
    ensures StepWord8(POLY_32, 0xffff_ffff) == 0x2dfd_1072
    ensures StepWord8(POLY_32, 0x2dfd_1072) == 0xbe26_ed00
    ensures StepWord8(POLY_32, 0xbe26_ed00) == 0x00be_26ed
    ensures StepWord8(POLY_32, 0x00be_26ed) == 0xdebb_20e3
  {
  }

  /** A message followed by its own checksum always leaves the same residue. */
  lemma {:induction false} Residue32(data: seq<bv8>, start: Bits, c: bv32)
    requires |start| == 32 && BitsOf(c, 32) == Checksum(Poly32(), data, start)
    ensures Checksum(Poly32(), data + LittleEndian(c, 4), start) == BitsOf(0x2144_df1c, 32)
  {
    UpdatesCompose(Poly32(), data, LittleEndian(c, 4), start);
    LittleEndianBits(c, 4);
    OwnComplement(BitsOf(c, 32));
  }

  lemma {:induction false} OwnComplement(y: Bits)
    requires |y| == 32
    ensures Not(Serial(Poly32(), Not(y), y)) == BitsOf(0x2144_df1c, 32)
  {
    Absorb(Poly32(), Not(y), y);
    AllOnesBits();
    assert Xor(Not(y), Fit(y, 32)) == BitsOf(0xffff_ffff, 32);
    OnesRun();
    BitsNot(0xdebb_20e3, 32);
    assert 0xdebb_20e3 as bv32 ^ 0xffff_ffff == 0x2144_df1c;
  }

  lemma {:induction false} AllOnesBits()
    ensures forall i :: 0 <= i < 32 ==> BitsOf(0xffff_ffff, 32)[i]
  {
    forall i | 0 <= i < 32 ensures BitAt(0xffff_ffff, i) {
      AllOnes(i);
    }
  }

  // ---------------------------------------------------------------------------------- errors, 16 bits

  /** Any error confined to 13 consecutive bits changes the 16-bit checksum. */
  lemma {:induction false} Burst16(a: seq<bv8>, b: seq<bv8>, start: bv16, lo: nat, hi: nat)
    requires |a| == |b| && Inside(Difference(a, b), lo, hi) && hi - lo <= 13
    ensures Checksum(Poly16(), a, BitsOf(start as bv32, 16)) == Checksum(Poly16(), b, BitsOf(start as bv32, 16))
       <==> a == b
  {
    Width16();
    BurstSeen(Poly16(), 13, a, b, BitsOf(start as bv32, 16), lo, hi);
  }

  /** The fourteen bits that the two bytes 0x43, 0x20 begin with. */
  function Blind16(): (z: Bits)
    ensures |z| == 14
  {
    [true, true, false, false, false, false, true, false, false, false, false, false, false, true]
  }

  lemma {:induction false} Divisor16()
    ensures Divisor(Poly16(), 13) == Blind16()
    ensures MessageBits([0x43, 0x20]) == Blind16() + [false, false]
  {
    Poly16Bits();
    TwoBytes(0x43, 0x20);
    ByteBits(0x43);
    ByteBits(0x20);
  }

  /** Thirteen is exact: of all errors confined to fourteen consecutive bits, the one pattern that the
      bytes 0x43, 0x20 begin with goes unseen, wherever it falls, and every other one is seen. */
  lemma {:induction false} BlindSpot16(a: seq<bv8>, b: seq<bv8>, start: bv16, lo: nat)
    requires |a| == |b| && Inside(Difference(a, b), lo, lo + 14)
    ensures Checksum(Poly16(), a, BitsOf(start as bv32, 16)) == Checksum(Poly16(), b, BitsOf(start as bv32, 16))
       <==> a == b || Difference(a, b)[lo..lo + 14] == Blind16()
  {
    Width16();
    Divisor16();
    BlindSpot(Poly16(), 13, a, b, BitsOf(start as bv32, 16), lo);
  }

  lemma {:induction false} FlipBits(x: bv8, m: bv8)
    ensures BitsOf((x ^ m) as bv32, 8) == Xor(BitsOf(x as bv32, 8), BitsOf(m as bv32, 8))
  {
    WidenXor(x, m);
    BitsXor(x as bv32, m as bv32, 8);
  }

  lemma {:induction false} WidenXor(x: bv8, m: bv8)
    ensures (x ^ m) as bv32 == (x as bv32) ^ (m as bv32)
  {
  }

  lemma {:induction false} TwoBytes(x: bv8, y: bv8)
    ensures MessageBits([x, y]) == BitsOf(x as bv32, 8) + BitsOf(y as bv32, 8)
  {
    assert [x, y] == [x] + [y];
    MessageBitsAppend([x], [y]);
    MessageBitsOne(x);
    MessageBitsOne(y);
  }

  lemma {:induction false} FlipTwo(x: bv8, y: bv8, m: bv8, n: bv8)
    ensures Difference([x, y], [x ^ m, y ^ n]) == MessageBits([m, n])
  {
    TwoBytes(x, y);
    TwoBytes(x ^ m, y ^ n);
    TwoBytes(m, n);
    FlipBits(x, m);
    FlipBits(y, n);
  }

  /** Flipping the bits 0x43 of one byte and 0x20 of the next never changes the 16-bit checksum, in any
      message and at any place in it. */
  lemma {:induction false} BlindBytes16(u: seq<bv8>, x: bv8, y: bv8, v: seq<bv8>, start: Bits)
    requires |start| == 16
    ensures Checksum(Poly16(), u + [x, y] + v, start)
         == Checksum(Poly16(), u + [x ^ 0x43, y ^ 0x20] + v, start)
  {
    var p, s, t := Poly16(), [x, y], [x ^ 0x43, y ^ 0x20];
    var mid := Checksum(p, u, start);
    BlindPair16(x, y, mid);
    UpdatesCompose(p, u, s, start);
    UpdatesCompose(p, u, t, start);
    UpdatesCompose(p, u + s, v, start);
    UpdatesCompose(p, u + t, v, start);
  }

  lemma {:induction false} BlindPair16(x: bv8, y: bv8, start: Bits)
    requires |start| == 16
    ensures Checksum(Poly16(), [x, y], start) == Checksum(Poly16(), [x ^ 0x43, y ^ 0x20], start)
  {
    Divisor16();
    FlipTwo(x, y, 0x43, 0x20);
    BlindPair([x, y], [x ^ 0x43, y ^ 0x20], start);
  }

  lemma {:induction false} BlindPair(a: seq<bv8>, b: seq<bv8>, start: Bits)
    requires |start| == 16 && |a| == |b| == 2 && Difference(a, b) == Blind16() + [false, false]
    ensures Checksum(Poly16(), a, start) == Checksum(Poly16(), b, start)
  {
    Width16();
    Divisor16();
    assert Difference(a, b)[0..14] == Blind16();
    BlindSpot(Poly16(), 13, a, b, start, 0);
  }

  lemma {:induction false} ParityNot(x: Bits)
    ensures Parity(Not(x)) == (Parity(x) != (|x| % 2 == 1))
  {
    if x != [] {
      assert Not(x)[1..] == Not(x[1..]);
      ParityNot(x[1..]);
    }
  }

  lemma {:induction false} ParityZeros(n: nat)
    ensures !Parity(Zeros(n))
  {
    if n > 0 {
      assert Zeros(n)[1..] == Zeros(n - 1);
      ParityZeros(n - 1);
    }
  }

  lemma {:induction false} OddPoly16()
    ensures Parity(Poly16())
  {
    var x, y, z := [true] + Zeros(4), [true] + Zeros(6), [true] + Zeros(3);
    Poly16Bits();
    assert Poly16() == x + (y + z);
    assert x[1..] == Zeros(4) && y[1..] == Zeros(6) && z[1..] == Zeros(3);
    ParityZeros(4);
    ParityZeros(6);
    ParityZeros(3);
    ParityAppend(x, y + z);
    ParityAppend(y, z);
  }

  /** The 16-bit checksum carries the parity of the start and of the whole message. */
  lemma {:induction false} ParityLaw16(data: seq<bv8>, start: Bits)
    requires |start| == 16
    ensures Parity(Checksum(Poly16(), data, start)) == (Parity(start) != Parity(MessageBits(data)))
  {
    var r := Serial(Poly16(), Not(start), MessageBits(data));
    OddPoly16();
    SerialParity(Poly16(), Not(start), MessageBits(data));
    ParityNot(start);
    ParityNot(r);
  }

  /** An error that flips an odd number of bits is always seen. */
  lemma {:induction false} OddErrorsSeen16(a: seq<bv8>, b: seq<bv8>, start: Bits)
    requires |start| == 16 && |a| == |b| && Parity(Difference(a, b))
    ensures Checksum(Poly16(), a, start) != Checksum(Poly16(), b, start)
  {
    ParityLaw16(a, start);
    ParityLaw16(b, start);
    ParityXor(MessageBits(a), MessageBits(b));
  }

  lemma {:induction false} SerialWidth(poly: Bits, w: nat, r: Bits, x: Bits)
    requires |r| == |poly| && Width(poly, w) && Within(r, w + |x|)
    ensures Within(Serial(poly, r, x), w)
    decreases |x|
  {
    SerialIsDivision(poly, w, r, x);
  }

  /** Only thirteen bits are in play: the top three bits of any checksum of a non-empty message are set. */
  lemma {:induction false} TopBits16(data: seq<bv8>, start: Bits)
    requires |start| == 16 && data != []
    ensures var c := Checksum(Poly16(), data, start); c[13] && c[14] && c[15]
  {
    Width16();
    SerialWidth(Poly16(), 13, Not(start), MessageBits(data));
  }
}
