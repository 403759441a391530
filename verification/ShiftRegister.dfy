/** The right-shift register that both table-driven CRCs run on, as mathematics: the single-bit step,
    its linearity over XOR, what it can and cannot lose, and its equality with long division.

    A bit string lists coefficients over GF(2) in the order the register meets them: low bit first,
    and the low bit of a message's first byte before everything else. A register is a bit string of
    fixed length, index 0 being the end that falls out. */
module ShiftRegister {

  type Bits = seq<bool>

  // ---------------------------------------------------------------------------------- bit strings

  /** Pointwise exclusive or. */
  function Xor(x: Bits, y: Bits): (z: Bits)
    requires |x| == |y|
    ensures |z| == |x| && forall i {:trigger z[i]} :: 0 <= i < |z| ==> z[i] == (x[i] != y[i])
  {
    seq(|x|, i requires 0 <= i < |x| => x[i] != y[i])
  }

  function Zeros(n: nat): (z: Bits)
    ensures |z| == n && forall i :: 0 <= i < n ==> !z[i]
  {
    seq(n, _ => false)
  }

  function Not(x: Bits): (z: Bits)
    ensures |z| == |x| && forall i {:trigger z[i]} :: 0 <= i < |z| ==> z[i] == !x[i]
  {
    seq(|x|, i requires 0 <= i < |x| => !x[i])
  }

  ghost predicate AllZero(x: Bits) {
    x == Zeros(|x|)
  }

  /** `x` cut or padded with zeros to `n` bits. */
  function Fit(x: Bits, n: nat): (z: Bits)
    ensures |z| == n && forall i {:trigger z[i]} :: 0 <= i < n ==> z[i] == (i < |x| && x[i])
  {
    seq(n, i requires 0 <= i => i < |x| && x[i])
  }

  /** The exclusive or of all the bits. */
  function Parity(x: Bits): bool {
    if x == [] then false else x[0] != Parity(x[1..])
  }

  // ---------------------------------------------------------------------------------- the register

  /** One shift: the bit that falls out decides whether the polynomial is folded in. */
  function Step(poly: Bits, r: Bits): (z: Bits)
    requires 0 < |r| == |poly|
    ensures |z| == |r|
    ensures forall i {:trigger z[i]} :: 0 <= i < |r| ==> z[i] == ((i + 1 < |r| && r[i + 1]) != (r[0] && poly[i]))
  {
    var s := r[1..] + [false];
    if r[0] then Xor(s, poly) else s
  }

  /** `n` shifts. */
  function Iterate(poly: Bits, r: Bits, n: nat): (z: Bits)
    requires 0 < |r| == |poly|
    ensures |z| == |r|
    decreases n
  {
    if n == 0 then r else Iterate(poly, Step(poly, r), n - 1)
  }

  /** One input bit goes in at the end that falls out. */
  function Feed(r: Bits, b: bool): (z: Bits)
    requires 0 < |r|
    ensures |z| == |r|
  {
    r[0 := r[0] != b]
  }

  /** The register after a whole bit string has been clocked in. */
  function Serial(poly: Bits, r: Bits, x: Bits): (z: Bits)
    requires 0 < |r| == |poly|
    ensures |z| == |r|
    decreases |x|
  {
    if x == [] then r else Serial(poly, Step(poly, Feed(r, x[0])), x[1..])
  }

  /** Schoolbook long division by the polynomial of degree `w` written `1` and then the low `w` bits of
      `poly`: whenever the leading bit is set, subtract the divisor aligned with it; when only `w` bits
      are left they are the remainder. */
  function Remainder(poly: Bits, w: nat, x: Bits): (z: Bits)
    requires w <= |x|
    ensures |z| == w
    decreases |x|
  {
    if |x| == w then x
    else if x[0] then Remainder(poly, w, Xor(x[1..], Fit(poly, |x| - 1)))
    else Remainder(poly, w, x[1..])
  }

  /** Nothing at or above index `w`. */
  ghost predicate Within(r: Bits, w: nat) {
    forall i :: w <= i < |r| ==> !r[i]
  }

  /** The register effectively has `w` bits: that is where the polynomial ends. */
  ghost predicate Width(poly: Bits, w: nat) {
    0 < w <= |poly| && poly[w - 1] && Within(poly, w)
  }

  // ---------------------------------------------------------------------------------- linearity

  lemma {:induction false} StepLinear(poly: Bits, a: Bits, b: Bits)
    requires 0 < |a| == |b| == |poly|
    ensures Step(poly, Xor(a, b)) == Xor(Step(poly, a), Step(poly, b))
  {
  }

  lemma {:induction false} IterateLinear(poly: Bits, a: Bits, b: Bits, n: nat)
    requires 0 < |a| == |b| == |poly|
    ensures Iterate(poly, Xor(a, b), n) == Xor(Iterate(poly, a, n), Iterate(poly, b, n))
    decreases n
  {
    if n > 0 {
      StepLinear(poly, a, b);
      IterateLinear(poly, Step(poly, a), Step(poly, b), n - 1);
    }
  }

  /** The register is linear in its start and its input together. */
  lemma {:induction false} SerialLinear(poly: Bits, a: Bits, x: Bits, b: Bits, y: Bits)
    requires 0 < |a| == |b| == |poly| && |x| == |y|
    ensures Serial(poly, Xor(a, b), Xor(x, y)) == Xor(Serial(poly, a, x), Serial(poly, b, y))
    decreases |x|
  {
    if x != [] {
      var a', b' := Feed(a, x[0]), Feed(b, y[0]);
      assert Feed(Xor(a, b), Xor(x, y)[0]) == Xor(a', b');
      StepLinear(poly, a', b');
      assert Xor(x, y)[1..] == Xor(x[1..], y[1..]);
      SerialLinear(poly, Step(poly, a'), x[1..], Step(poly, b'), y[1..]);
    }
  }

  /** Clocking in one string and then another is clocking in their concatenation. */
  lemma {:induction false} SerialAppend(poly: Bits, r: Bits, x: Bits, y: Bits)
    requires 0 < |r| == |poly|
    ensures Serial(poly, r, x + y) == Serial(poly, Serial(poly, r, x), y)
    decreases |x|
  {
    if x == [] {
      assert x + y == y;
    } else {
      assert (x + y)[1..] == x[1..] + y;
      SerialAppend(poly, Step(poly, Feed(r, x[0])), x[1..], y);
    }
  }

  lemma {:induction false} SerialZeros(poly: Bits, r: Bits, x: Bits)
    requires 0 < |r| == |poly| && AllZero(x)
    ensures Serial(poly, r, x) == Iterate(poly, r, |x|)
    decreases |x|
  {
    if x != [] {
      assert Feed(r, x[0]) == r;
      SerialZeros(poly, Step(poly, r), x[1..]);
    }
  }

  /** Up to a register's worth of input may be folded in at once and then shifted through. */
  lemma {:induction false} Absorb(poly: Bits, r: Bits, x: Bits)
    requires 0 < |r| == |poly| && |x| <= |r|
    ensures Serial(poly, r, x) == Iterate(poly, Xor(r, Fit(x, |r|)), |x|)
    decreases |x|
  {
    if x == [] {
      assert Xor(r, Fit(x, |r|)) == r;
    } else {
      var r' := Step(poly, Feed(r, x[0]));
      assert Xor(r', Fit(x[1..], |r|)) == Step(poly, Xor(r, Fit(x, |r|)));
      Absorb(poly, r', x[1..]);
    }
  }

  /** What the low `k` cells do not touch just moves down. */
  lemma {:induction false} IterateHigh(poly: Bits, r: Bits, k: nat)
    requires 0 < |r| == |poly| && k <= |r| && forall i :: 0 <= i < k ==> !r[i]
    ensures Iterate(poly, r, k) == r[k..] + Zeros(k)
    decreases k
  {
    if k > 0 {
      var s := r[1..] + [false];
      assert Step(poly, r) == s;
      IterateHigh(poly, s, k - 1);
      assert s[k - 1..] + Zeros(k - 1) == r[k..] + Zeros(k);
    } else {
      assert r[0..] + Zeros(0) == r;
    }
  }

  /** Clocking in `k` bits moves the high cells down by `k` and folds in what the low `k` cells and the
      input together leave after `k` steps: the identity behind the byte-wise table. */
  lemma {:induction false} SplitLow(poly: Bits, r: Bits, x: Bits)
    requires 0 < |r| == |poly| && |x| <= |r|
    ensures Serial(poly, r, x)
         == Xor(r[|x|..] + Zeros(|x|), Iterate(poly, Fit(Xor(r[..|x|], x), |r|), |x|))
  {
    var low, high := Fit(Xor(r[..|x|], x), |r|), Zeros(|x|) + r[|x|..];
    Absorb(poly, r, x);
    SplitRegister(r, x);
    IterateLinear(poly, high, low, |x|);
    IterateHigh(poly, high, |x|);
    assert high[|x|..] == r[|x|..];
  }

  lemma {:induction false} SplitRegister(r: Bits, x: Bits)
    requires |x| <= |r|
    ensures Xor(r, Fit(x, |r|)) == Xor(Zeros(|x|) + r[|x|..], Fit(Xor(r[..|x|], x), |r|))
  {
  }

  /** Two registers that absorb equally long strings end equal exactly when a register started at
      zero ends at zero over the difference of the strings. */
  lemma {:induction false} Collide(poly: Bits, r: Bits, x: Bits, y: Bits)
    requires 0 < |r| == |poly| && |x| == |y|
    ensures Serial(poly, r, x) == Serial(poly, r, y)
       <==> Serial(poly, Zeros(|r|), Xor(x, y)) == Zeros(|r|)
  {
    assert Xor(r, r) == Zeros(|r|);
    SerialLinear(poly, r, x, r, y);
    XorZero(Serial(poly, r, x), Serial(poly, r, y));
  }

  lemma {:induction false} XorZero(x: Bits, y: Bits)
    requires |x| == |y|
    ensures Xor(x, y) == Zeros(|x|) <==> x == y
  {
    var z := Xor(x, y);
    if z == Zeros(|x|) {
      forall i | 0 <= i < |x| ensures x[i] == y[i] {
        assert !z[i];
      }
    }
  }

  // ---------------------------------------------------------------------------------- what is lost

  lemma {:induction false} StepKeepsWidth(poly: Bits, r: Bits, w: nat)
    requires 0 < |r| == |poly| && Within(poly, w) && Within(r, w)
    ensures Within(Step(poly, r), w)
  {
  }

  /** Within the register's own width a step loses nothing: only zero steps to zero. */
  lemma {:induction false} StepKernel(poly: Bits, r: Bits, w: nat)
    requires |r| == |poly| && Width(poly, w) && Within(r, w)
    ensures AllZero(Step(poly, r)) <==> AllZero(r)
  {
    var s := Step(poly, r);
    if AllZero(s) {
      assert !s[w - 1];
      assert !r[0];
      forall i | 0 <= i < |r| ensures !r[i] {
        if i > 0 {
          assert !s[i - 1];
        }
      }
    }
  }

  lemma {:induction false} IterateKernel(poly: Bits, r: Bits, w: nat, n: nat)
    requires |r| == |poly| && Width(poly, w) && Within(r, w)
    ensures AllZero(Iterate(poly, r, n)) <==> AllZero(r)
    decreases n
  {
    if n > 0 {
      StepKernel(poly, r, w);
      StepKeepsWidth(poly, r, w);
      IterateKernel(poly, Step(poly, r), w, n - 1);
    }
  }

  /** Every set bit of `x` lies in the window `[lo, hi)`. */
  ghost predicate Inside(x: Bits, lo: nat, hi: nat) {
    lo <= hi <= |x| && forall i :: 0 <= i < |x| && x[i] ==> lo <= i < hi
  }

  /** A difference confined to a window leaves what the window leaves, shifted on. */
  lemma {:induction false} WindowOnly(poly: Bits, r: Bits, x: Bits, lo: nat, hi: nat)
    requires |r| == |poly| > 0 && AllZero(r) && Inside(x, lo, hi) && hi - lo <= |r|
    ensures Serial(poly, r, x) == Iterate(poly, Fit(x[lo..hi], |r|), |x| - lo)
  {
    assert x == x[..lo] + (x[lo..hi] + x[hi..]);
    WindowParts(poly, r, x[..lo], x[lo..hi], x[hi..]);
  }

  lemma {:induction false} WindowParts(poly: Bits, r: Bits, u: Bits, v: Bits, w: Bits)
    requires |r| == |poly| > 0 && AllZero(r) && AllZero(u) && AllZero(w) && |v| <= |r|
    ensures Serial(poly, r, u + (v + w)) == Iterate(poly, Fit(v, |r|), |v| + |w|)
  {
    SerialAppend(poly, r, u, v + w);
    SerialZeros(poly, r, u);
    IterateZeros(poly, r, |u|);
    SerialAppend(poly, r, v, w);
    Absorb(poly, r, v);
    assert Xor(r, Fit(v, |r|)) == Fit(v, |r|);
    SerialZeros(poly, Serial(poly, r, v), w);
    IterateAppend(poly, Fit(v, |r|), |v|, |w|);
  }

  lemma {:induction false} IterateZeros(poly: Bits, r: Bits, n: nat)
    requires |r| == |poly| > 0 && AllZero(r)
    ensures Iterate(poly, r, n) == r
    decreases n
  {
    if n > 0 {
      assert Step(poly, r) == r;
      IterateZeros(poly, r, n - 1);
    }
  }

  lemma {:induction false} WindowZero(x: Bits, lo: nat, hi: nat, n: nat)
    requires Inside(x, lo, hi) && hi - lo <= n
    ensures AllZero(x) <==> AllZero(Fit(x[lo..hi], n))
  {
    var v := Fit(x[lo..hi], n);
    forall i | 0 <= i < |x| ensures x[i] ==> v[i - lo] {
    }
  }

  /** Burst errors: a difference inside `w` consecutive bits leaves the register at zero only if it is
      no difference at all. */
  lemma {:induction false} Burst(poly: Bits, w: nat, r: Bits, x: Bits, lo: nat, hi: nat)
    requires |r| == |poly| && Width(poly, w) && AllZero(r)
    requires Inside(x, lo, hi) && hi - lo <= w
    ensures AllZero(Serial(poly, r, x)) <==> AllZero(x)
  {
    WindowOnly(poly, r, x, lo, hi);
    WindowZero(x, lo, hi, |r|);
    KernelWithin(poly, x[lo..hi], w, |x| - lo);
  }

  lemma {:induction false} KernelWithin(poly: Bits, u: Bits, w: nat, n: nat)
    requires Width(poly, w) && |u| <= w
    ensures AllZero(Iterate(poly, Fit(u, |poly|), n)) <==> AllZero(Fit(u, |poly|))
  {
    IterateKernel(poly, Fit(u, |poly|), w, n);
  }

  lemma {:induction false} IterateAppend(poly: Bits, r: Bits, m: nat, n: nat)
    requires |r| == |poly| > 0
    ensures Iterate(poly, Iterate(poly, r, m), n) == Iterate(poly, r, m + n)
    decreases m
  {
    if m > 0 {
      IterateAppend(poly, Step(poly, r), m - 1, n);
    }
  }

  /** The divisor itself, as a bit string: `1` and then the low `w` bits of the polynomial. */
  function Divisor(poly: Bits, w: nat): (z: Bits)
    requires w <= |poly|
    ensures |z| == w + 1
  {
    [true] + poly[..w]
  }

  /** One bit more than the width: exactly the divisor slips through, and nothing else. */
  lemma {:induction false} BurstOneMore(poly: Bits, w: nat, r: Bits, x: Bits, lo: nat)
    requires |r| == |poly| && Width(poly, w) && AllZero(r)
    requires Inside(x, lo, lo + w + 1)
    ensures AllZero(Serial(poly, r, x)) <==> AllZero(x) || x[lo..lo + w + 1] == Divisor(poly, w)
  {
    var u, v, t := x[..lo], x[lo..lo + w + 1], x[lo + w + 1..];
    assert x == u + (v + t);
    OneMoreZero(x, lo, lo + w + 1);
    BurstParts(poly, w, r, u, v, t);
  }

  lemma {:induction false} OneMoreZero(x: Bits, lo: nat, hi: nat)
    requires Inside(x, lo, hi)
    ensures AllZero(x) <==> AllZero(x[lo..hi])
  {
    var v := x[lo..hi];
    forall i | 0 <= i < |x| ensures x[i] ==> v[i - lo] {
    }
  }

  /** The register after the first bit of a string, from zero. */
  function First(poly: Bits, b: bool): (z: Bits)
    ensures |z| == |poly|
  {
    if b then poly else Zeros(|poly|)
  }

  lemma {:induction false} OneMoreParts(poly: Bits, r: Bits, u: Bits, v: Bits, t: Bits)
    requires |r| == |poly| > 0 && AllZero(r) && AllZero(u) && AllZero(t) && 0 < |v| <= |r| + 1
    ensures Serial(poly, r, u + (v + t))
         == Iterate(poly, Xor(First(poly, v[0]), Fit(v[1..], |r|)), |v| - 1 + |t|)
  {
    var first := First(poly, v[0]);
    SerialAppend(poly, r, u, v + t);
    SerialZeros(poly, r, u);
    IterateZeros(poly, r, |u|);
    SerialAppend(poly, r, v, t);
    assert Step(poly, Feed(r, v[0])) == first;
    Absorb(poly, first, v[1..]);
    SerialZeros(poly, Serial(poly, r, v), t);
    IterateAppend(poly, Xor(first, Fit(v[1..], |r|)), |v| - 1, |t|);
  }

  lemma {:induction false} BurstParts(poly: Bits, w: nat, r: Bits, u: Bits, v: Bits, t: Bits)
    requires |r| == |poly| && Width(poly, w) && AllZero(r) && AllZero(u) && AllZero(t) && |v| == w + 1
    ensures AllZero(Serial(poly, r, u + (v + t))) <==> AllZero(v) || v == Divisor(poly, w)
  {
    var first, rest := First(poly, v[0]), Fit(v[1..], |poly|);
    OneMoreParts(poly, r, u, v, t);
    IterateKernel(poly, Xor(first, rest), w, w + |t|);
    XorZero(first, rest);
    RestIsFirst(poly, v, w);
  }

  lemma {:induction false} RestIsFirst(poly: Bits, v: Bits, w: nat)
    requires Width(poly, w) && |v| == w + 1
    ensures First(poly, v[0]) == Fit(v[1..], |poly|) <==> AllZero(v) || v == Divisor(poly, w)
  {
    var first, rest := First(poly, v[0]), Fit(v[1..], |poly|);
    forall i | 0 <= i < w ensures rest[i] == v[i + 1] {
      assert rest[i] == v[1..][i];
    }
    if first == rest {
      forall i | 0 <= i < w ensures v[i + 1] == first[i] {
        assert rest[i] == v[i + 1];
      }
      var z := if v[0] then Divisor(poly, w) else Zeros(w + 1);
      forall i | 0 <= i <= w ensures v[i] == z[i] {
        assert i > 0 ==> v[(i - 1) + 1] == first[i - 1];
      }
      assert v == z;
    } else if v[0] {
      var i :| 0 <= i < |poly| && first[i] != rest[i];
      assert i < w && v[i + 1] != poly[i];
    }
  }

  // ---------------------------------------------------------------------------------- long division

  /** What the division is applied to: the message moved up by the width, with the register's start
      folded into its first bits. */
  function Dividend(r: Bits, x: Bits, w: nat): (z: Bits)
    ensures |z| == |x| + w
  {
    Xor(Fit(r, |x| + w), x + Zeros(w))
  }

  /** The serial register computes the remainder of the dividend. */
  lemma {:induction false} SerialIsDivision(poly: Bits, w: nat, r: Bits, x: Bits)
    requires |r| == |poly| && Width(poly, w) && Within(r, w + |x|)
    ensures Serial(poly, r, x) == Fit(Remainder(poly, w, Dividend(r, x, w)), |r|)
    decreases |x|
  {
    if x == [] {
      assert Dividend(r, x, w) == r[..w];
    } else {
      DivisionStep(poly, w, r, x);
      SerialIsDivision(poly, w, Step(poly, Feed(r, x[0])), x[1..]);
    }
  }

  lemma {:induction false} DivisionStep(poly: Bits, w: nat, r: Bits, x: Bits)
    requires |r| == |poly| && Width(poly, w) && Within(r, w + |x|) && 0 < |x|
    ensures Within(Step(poly, Feed(r, x[0])), w + |x| - 1)
    ensures Remainder(poly, w, Dividend(r, x, w))
         == Remainder(poly, w, Dividend(Step(poly, Feed(r, x[0])), x[1..], w))
  {
    var s := Dividend(r, x, w);
    var u := Dividend(Step(poly, Feed(r, x[0])), x[1..], w);
    forall i | 0 <= i < |u| ensures u[i] == (s[i + 1] != (s[0] && i < |poly| && poly[i])) {
      DividendAt(r, x, w, i + 1);
      DividendAt(Step(poly, Feed(r, x[0])), x[1..], w, i);
    }
    DividendAt(r, x, w, 0);
    assert u == if s[0] then Xor(s[1..], Fit(poly, |s| - 1)) else s[1..];
  }

  lemma {:induction false} DividendAt(r: Bits, x: Bits, w: nat, i: nat)
    requires i < |x| + w
    ensures Dividend(r, x, w)[i] == ((i < |r| && r[i]) != (i < |x| && x[i]))
  {
  }

  // ---------------------------------------------------------------------------------- parity

  lemma {:induction false} ParityXor(x: Bits, y: Bits)
    requires |x| == |y|
    ensures Parity(Xor(x, y)) == (Parity(x) != Parity(y))
  {
    if x != [] {
      assert Xor(x, y)[1..] == Xor(x[1..], y[1..]);
      ParityXor(x[1..], y[1..]);
    }
  }

  lemma {:induction false} ParityAppend(x: Bits, y: Bits)
    ensures Parity(x + y) == (Parity(x) != Parity(y))
  {
    if x == [] {
      assert x + y == y;
    } else {
      assert (x + y)[1..] == x[1..] + y;
      ParityAppend(x[1..], y);
    }
  }

  /** With a polynomial of odd parity the register's parity is that of its start and its input. */
  lemma {:induction false} SerialParity(poly: Bits, r: Bits, x: Bits)
    requires 0 < |r| == |poly| && Parity(poly)
    ensures Parity(Serial(poly, r, x)) == (Parity(r) != Parity(x))
    decreases |x|
  {
    if x != [] {
      var f := Feed(r, x[0]);
      assert f[1..] == r[1..];
      StepParity(poly, f);
      SerialParity(poly, Step(poly, f), x[1..]);
    }
  }

  lemma {:induction false} StepParity(poly: Bits, r: Bits)
    requires 0 < |r| == |poly| && Parity(poly)
    ensures Parity(Step(poly, r)) == Parity(r)
  {
    ParityAppend(r[1..], [false]);
    assert Parity([false]) == false;
    ParityXor(r[1..] + [false], poly);
  }
}
