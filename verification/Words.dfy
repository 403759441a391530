/** Machine words as bit strings: what shifting, XOR and complement of a `bv32` do to its bits. */
module Words {
  import opened ShiftRegister
  import opened CrcTables

  /** The word with only bit `i` set; zero from 32 upwards. */
  function Mask(i: nat): bv32 {
    if i == 0 then 1 else Twice(Mask(i - 1))
  }

  function Twice(m: bv32): bv32 {
    m << 1
  }

  function Half(r: bv32): bv32 {
    r >> 1
  }

  predicate Single(m: bv32) {
    m & (m - 1) == 0
  }

  predicate Under(r: bv32, m: bv32) {
    r & m != 0
  }

  /** Bit `i` of the word `r`. */
  predicate BitAt(r: bv32, i: nat) {
    Under(r, Mask(i))
  }

  /** The low `n` bits of `r`, low bit first. */
  function BitsOf(r: bv32, n: nat): (z: Bits)
    ensures |z| == n && forall i {:trigger z[i]} :: 0 <= i < n ==> z[i] == BitAt(r, i)
  {
    seq(n, i requires 0 <= i => BitAt(r, i))
  }

  // ------------------------------------------------------------- bit-vector facts, one at a time

  lemma {:induction false} TwiceSingle(m: bv32)
    requires Single(m)
    ensures Single(Twice(m))
  {
  }

  lemma {:induction false} UnderXor(a: bv32, b: bv32, m: bv32)
    requires Single(m)
    ensures Under(a ^ b, m) == (Under(a, m) != Under(b, m))
  {
  }

  lemma {:induction false} UnderHalf(r: bv32, m: bv32)
    ensures Under(Half(r), m) == Under(r, Twice(m))
  {
  }

  lemma {:induction false} Half8(r: bv32)
    ensures Half(Half(Half(Half(Half(Half(Half(Half(r)))))))) == r >> 8
  {
  }

  lemma {:induction false} UnderNothing(r: bv32, m: bv32)
    ensures !Under(0, m) && !Under(r, 0)
  {
  }

  lemma {:induction false} SmallWords(r: bv32)
    ensures r <= 0xff ==> r >> 8 == 0
    ensures r <= 0xffff ==> r >> 8 <= 0xff
    ensures r >> 8 >> 8 <= 0xffff
  {
  }

  // ---------------------------------------------------------------------------------- masks

  lemma {:induction false} MaskSingle(i: nat)
    ensures Single(Mask(i))
  {
    if i > 0 {
      MaskSingle(i - 1);
      TwiceSingle(Mask(i - 1));
    }
  }

  lemma {:induction false} LowMasks()
    ensures Mask(0) == 1 && Mask(1) == 2 && Mask(2) == 4 && Mask(3) == 8
    ensures Mask(4) == 16 && Mask(5) == 32 && Mask(6) == 64 && Mask(7) == 128
  {
  }

  // ---------------------------------------------------------------------------------- shifts and XOR

  lemma {:induction false} BitAtHalf(r: bv32, i: nat)
    ensures BitAt(Half(r), i) == BitAt(r, i + 1)
  {
    UnderHalf(r, Mask(i));
  }

  lemma {:induction false} BitAtShift8(r: bv32, i: nat)
    ensures BitAt(r >> 8, i) == BitAt(r, i + 8)
  {
    var a := Half(r);
    var b := Half(a);
    var c := Half(b);
    var d := Half(c);
    var e := Half(d);
    var f := Half(e);
    var g := Half(f);
    Half8(r);
    BitAtHalf(r, i + 7);
    BitAtHalf(a, i + 6);
    BitAtHalf(b, i + 5);
    BitAtHalf(c, i + 4);
    BitAtHalf(d, i + 3);
    BitAtHalf(e, i + 2);
    BitAtHalf(f, i + 1);
    BitAtHalf(g, i);
  }

  lemma {:induction false} BitAtXor(a: bv32, b: bv32, i: nat)
    ensures BitAt(a ^ b, i) == (BitAt(a, i) != BitAt(b, i))
  {
    MaskSingle(i);
    UnderXor(a, b, Mask(i));
  }

  lemma {:induction false} BitsXor(a: bv32, b: bv32, n: nat)
    ensures BitsOf(a ^ b, n) == Xor(BitsOf(a, n), BitsOf(b, n))
  {
    forall i | 0 <= i < n ensures BitAt(a ^ b, i) == (BitAt(a, i) != BitAt(b, i)) {
      BitAtXor(a, b, i);
    }
  }

  /** `r` fits in a register of `n` bits. */
  ghost predicate Holds(r: bv32, n: nat) {
    n == 32 || (n == 16 && r <= 0xffff) || (n == 8 && r <= 0xff)
  }

  lemma {:induction false} NoBitsInByte(r: bv32, i: nat)
    requires r <= 0xff && 8 <= i
    ensures !BitAt(r, i)
  {
    SmallWords(r);
    BitAtShift8(r, i - 8);
    UnderNothing(0, Mask(i - 8));
  }

  lemma {:induction false} NoBitsInHalfWord(r: bv32, i: nat)
    requires r <= 0xffff && 16 <= i
    ensures !BitAt(r, i)
  {
    SmallWords(r);
    BitAtShift8(r, i - 8);
    NoBitsInByte(r >> 8, i - 8);
  }

  /** No bits beyond the register. */
  lemma {:induction false} NoBitsAbove(r: bv32, n: nat, i: nat)
    requires Holds(r, n) && n <= i
    ensures !BitAt(r, i)
  {
    if n == 8 {
      NoBitsInByte(r, i);
    } else if n == 16 {
      NoBitsInHalfWord(r, i);
    } else {
      SmallWords(r);
      BitAtShift8(r, i - 8);
      BitAtShift8(r >> 8, i - 16);
      NoBitsInHalfWord(r >> 8 >> 8, i - 16);
    }
  }

  /** A byte moved out at the low end. */
  lemma {:induction false} BitsShift8(r: bv32, n: nat)
    requires Holds(r, n) && 8 <= n
    ensures BitsOf(r >> 8, n) == BitsOf(r, n)[8..] + Zeros(8)
  {
    var s := r >> 8;
    forall i | 0 <= i < n ensures BitAt(s, i) == (i + 8 < n && BitAt(r, i + 8)) {
      BitAtShift8(r, i);
      if n <= i + 8 {
        NoBitsAbove(r, n, i + 8);
      }
    }
  }

  lemma {:induction false} BitsHalf(r: bv32, n: nat)
    requires Holds(r, n)
    ensures BitsOf(Half(r), n) == BitsOf(r, n)[1..] + [false]
  {
    var h := Half(r);
    forall i | 0 <= i < n ensures BitAt(h, i) == (i + 1 < n && BitAt(r, i + 1)) {
      BitAtHalf(r, i);
      if i + 1 == n {
        NoBitsAbove(r, n, n);
      }
    }
  }

  /** One shift of a word is one step of the register it holds. */
  lemma {:induction false} BitsStep(poly: bv32, r: bv32, n: nat)
    requires Holds(r, n)
    ensures BitsOf(StepWord(poly, r), n) == Step(BitsOf(poly, n), BitsOf(r, n))
  {
    BitsHalf(r, n);
    BitsXor(Half(r), poly, n);
    LowMasks();
    StepWordCases(poly, r);
  }

  lemma {:induction false} OddStep(poly: bv32, r: bv32)
    requires Under(r, 1)
    ensures StepWord(poly, r) == Half(r) ^ poly
  {
    assert r & 1 == 1;
  }

  lemma {:induction false} EvenStep(poly: bv32, r: bv32)
    requires !Under(r, 1)
    ensures StepWord(poly, r) == Half(r)
  {
    assert r & 1 == 0;
  }

  lemma {:induction false} StepWordCases(poly: bv32, r: bv32)
    ensures StepWord(poly, r) == if Under(r, 1) then Half(r) ^ poly else Half(r)
  {
    if Under(r, 1) {
      OddStep(poly, r);
    } else {
      EvenStep(poly, r);
    }
  }

  lemma {:induction false} StepHolds(poly: bv32, r: bv32, n: nat)
    requires Holds(poly, n) && Holds(r, n)
    ensures Holds(StepWord(poly, r), n)
  {
  }

  // ---------------------------------------------------------------------------------- all the bits

  lemma {:induction false} LowByteOnes(x: bv32, i: nat)
    requires x & 0xff == 0xff && i < 8
    ensures BitAt(x, i)
  {
    LowMasks();
    OnesUnder(x);
  }

  lemma {:induction false} OnesUnder(x: bv32)
    requires x & 0xff == 0xff
    ensures Under(x, 1) && Under(x, 2) && Under(x, 4) && Under(x, 8)
    ensures Under(x, 16) && Under(x, 32) && Under(x, 64) && Under(x, 128)
  {
  }

  lemma {:induction false} LowByteZero(x: bv32)
    requires forall i :: 0 <= i < 8 ==> !BitAt(x, i)
    ensures x & 0xff == 0
  {
    LowMasks();
    assert !BitAt(x, 0) && !BitAt(x, 1) && !BitAt(x, 2) && !BitAt(x, 3);
    assert !BitAt(x, 4) && !BitAt(x, 5) && !BitAt(x, 6) && !BitAt(x, 7);
    ZeroUnder(x);
  }

  lemma {:induction false} ZeroUnder(x: bv32)
    requires !Under(x, 1) && !Under(x, 2) && !Under(x, 4) && !Under(x, 8)
    requires !Under(x, 16) && !Under(x, 32) && !Under(x, 64) && !Under(x, 128)
    ensures x & 0xff == 0
  {
  }

  lemma {:induction false} AllOnes(i: nat)
    requires i < 32
    ensures BitAt(0xffff_ffff, i)
  {
    var a: bv32 := 0xffff_ffff;
    OnesShifts(a);
    if 8 <= i { BitAtShift8(a, i - 8); }
    if 16 <= i { BitAtShift8(a >> 8, i - 16); }
    if 24 <= i { BitAtShift8(a >> 8 >> 8, i - 24); }
    if i < 8 {
      LowByteOnes(a, i);
    } else if i < 16 {
      LowByteOnes(a >> 8, i - 8);
    } else if i < 24 {
      LowByteOnes(a >> 8 >> 8, i - 16);
    } else {
      LowByteOnes(a >> 8 >> 8 >> 8, i - 24);
    }
  }

  lemma {:induction false} OnesShifts(a: bv32)
    requires a == 0xffff_ffff
    ensures a & 0xff == 0xff && (a >> 8) & 0xff == 0xff
    ensures (a >> 8 >> 8) & 0xff == 0xff && (a >> 8 >> 8 >> 8) & 0xff == 0xff
  {
  }

  lemma {:induction false} BitsNot(r: bv32, n: nat)
    requires n <= 32
    ensures BitsOf(r ^ 0xffff_ffff, n) == Not(BitsOf(r, n))
  {
    BitsXor(r, 0xffff_ffff, n);
    forall i | 0 <= i < n ensures BitAt(0xffff_ffff, i) {
      AllOnes(i);
    }
  }

  lemma {:induction false} ByteZero(x: bv32, p: bv32, n: nat)
    requires p == x >> 8
    requires forall i :: 0 <= i < n + 8 ==> !BitAt(x, i)
    ensures x & 0xff == 0
    ensures forall i :: 0 <= i < n ==> !BitAt(p, i)
  {
    forall i | 0 <= i < n ensures !BitAt(p, i) {
      BitAtShift8(x, i);
    }
    LowByteZero(x);
  }

  lemma {:induction false} BytesZero(x: bv32, p: bv32, q: bv32, r: bv32)
    requires p == x >> 8 && q == p >> 8 && r == q >> 8
    requires forall i :: 0 <= i < 32 ==> !BitAt(x, i)
    ensures x & 0xff == 0 && p & 0xff == 0 && q & 0xff == 0 && r & 0xff == 0
  {
    ByteZero(x, p, 24);
    ByteZero(p, q, 16);
    ByteZero(q, r, 8);
    LowByteZero(r);
  }

  lemma {:induction false} FourZeros(x: bv32, p: bv32, q: bv32, r: bv32)
    requires p == x >> 8 && q == p >> 8 && r == q >> 8
    requires x & 0xff == 0 && p & 0xff == 0 && q & 0xff == 0 && r & 0xff == 0
    ensures x == 0
  {
  }

  /** Words are determined by their bits. */
  lemma {:induction false} BitsDetermine(a: bv32, b: bv32, n: nat)
    requires Holds(a, n) && Holds(b, n) && BitsOf(a, n) == BitsOf(b, n)
    ensures a == b
  {
    var x := a ^ b;
    forall i | 0 <= i < 32 ensures !BitAt(x, i) {
      BitAtXor(a, b, i);
      if n <= i {
        NoBitsAbove(a, n, i);
        NoBitsAbove(b, n, i);
      } else {
        assert BitsOf(a, n)[i] == BitsOf(b, n)[i];
      }
    }
    var p := x >> 8;
    var q := p >> 8;
    BytesZero(x, p, q, q >> 8);
    FourZeros(x, p, q, q >> 8);
    XorZeroWord(a, b);
  }

  lemma {:induction false} XorZeroWord(a: bv32, b: bv32)
    requires a ^ b == 0
    ensures a == b
  {
  }
}
