/** `hash_pod`: the multiply-and-add hash over bytes in a 64-bit `size_t`, and how far apart two strings
    must differ before it can confuse them. */
module HashPod {

  /** The values of a `size_t`. */
  const MODULUS: nat := 0x1_0000_0000_0000_0000
  const MULTIPLIER: nat := 22511
  const INCREMENT: nat := 33469

  newtype Byte = b: int | 0 <= b < 0x100

  function Absorb(h: nat, b: Byte): (r: nat)
    ensures r < MODULUS
  {
    (h * MULTIPLIER + INCREMENT + b as int) % MODULUS
  }

  /** The hash after the bytes of `data`, from the state `h`. */
  function HashFrom(h: nat, data: seq<Byte>): nat {
    if data == [] then h else Absorb(HashFrom(h, data[..|data| - 1]), data[|data| - 1])
  }

  function Hash(data: seq<Byte>): nat {
    HashFrom(1, data)
  }

  /** `hash_pod`. */
  method Compute(data: seq<Byte>) returns (ret: nat)
    ensures ret == Hash(data) && ret < MODULUS
    ensures data == [] ==> ret == 1
    ensures data != [] ==>
              ret == (Hash(data[..|data| - 1]) * 22511 + 33469 + data[|data| - 1] as int) % 0x1_0000_0000_0000_0000
  {
    ret := 1;
    var p := 0;
    while p != |data|
      invariant 0 <= p <= |data|
      invariant ret == HashFrom(1, data[..p]) && ret < MODULUS
      decreases |data| - p
    {
      assert data[..p + 1][..p] == data[..p];
      ret := (ret * MULTIPLIER + INCREMENT + data[p] as int) % MODULUS;
      p := p + 1;
    }
    assert data[..p] == data;
  }

  // ---------------------------------------------------------------------------------- equal tails

  lemma {:induction false} HashAppend(h: nat, a: seq<Byte>, b: seq<Byte>)
    ensures HashFrom(h, a + b) == HashFrom(HashFrom(h, a), b)
    decreases |b|
  {
    if b == [] {
      assert a + b == a;
    } else {
      assert (a + b)[..|a + b| - 1] == a + b[..|b| - 1];
      HashAppend(h, a, b[..|b| - 1]);
    }
  }

  /** The multiplier is odd, hence invertible modulo a power of two: a step never merges two states. */
  lemma {:induction false} AbsorbInjective(g: nat, h: nat, b: Byte)
    requires g < MODULUS && h < MODULUS && Absorb(g, b) == Absorb(h, b)
    ensures g == h
  {
    var inverse := 11582172304109582095;
    var excess := (inverse * MULTIPLIER - 1) / MODULUS;
    assert inverse * MULTIPLIER == 1 + excess * MODULUS;
    var x, y := g * MULTIPLIER + INCREMENT + b as int, h * MULTIPLIER + INCREMENT + b as int;
    var q := x / MODULUS - y / MODULUS;
    assert (g - h) * MULTIPLIER == q * MODULUS;
    assert g - h == MODULUS * (q * inverse - excess * (g - h));
  }

  lemma {:induction false} HashBelow(h: nat, data: seq<Byte>)
    requires h < MODULUS
    ensures HashFrom(h, data) < MODULUS
  {
  }

  lemma {:induction false} SameTail(g: nat, h: nat, data: seq<Byte>)
    requires g < MODULUS && h < MODULUS
    ensures HashFrom(g, data) == HashFrom(h, data) <==> g == h
    decreases |data|
  {
    if data != [] {
      var rest := data[..|data| - 1];
      HashBelow(g, rest);
      HashBelow(h, rest);
      SameTail(g, h, rest);
      if HashFrom(g, data) == HashFrom(h, data) {
        AbsorbInjective(HashFrom(g, rest), HashFrom(h, rest), data[|data| - 1]);
      }
    }
  }

  // ---------------------------------------------------------------------------------- short windows

  /** The bytewise difference of two strings. */
  function Digits(a: seq<Byte>, b: seq<Byte>): (d: seq<int>)
    requires |a| == |b|
    ensures |d| == |a| && forall i :: 0 <= i < |d| ==> d[i] == a[i] as int - b[i] as int
  {
    seq(|a|, i requires 0 <= i < |a| => a[i] as int - b[i] as int)
  }

  /** A string of differences read as a number in base 22511. */
  function Value(d: seq<int>): int {
    if d == [] then 0 else Value(d[..|d| - 1]) * MULTIPLIER + d[|d| - 1]
  }

  /** Two strings hashed from one state end apart by the value of their difference, up to the modulus. */
  lemma {:induction false} HashDifference(h: nat, a: seq<Byte>, b: seq<Byte>) returns (q: int)
    requires |a| == |b|
    ensures HashFrom(h, a) - HashFrom(h, b) == Value(Digits(a, b)) + q * MODULUS
    decreases |a|
  {
    if a == [] {
      q := 0;
    } else {
      var n := |a| - 1;
      var p := HashDifference(h, a[..n], b[..n]);
      assert Digits(a, b)[..n] == Digits(a[..n], b[..n]);
      var x, y := HashFrom(h, a[..n]) * MULTIPLIER + INCREMENT + a[n] as int,
                  HashFrom(h, b[..n]) * MULTIPLIER + INCREMENT + b[n] as int;
      q := p * MULTIPLIER - x / MODULUS + y / MODULUS;
    }
  }

  lemma {:induction false} LeadingZero(d: seq<int>)
    ensures Value([0] + d) == Value(d)
    decreases |d|
  {
    if d == [] {
      assert [0] + d == [0];
      assert [0][..0] == [];
    } else {
      assert ([0] + d)[..|d|] == [0] + d[..|d| - 1];
      LeadingZero(d[..|d| - 1]);
    }
  }

  ghost predicate Small(d: seq<int>) {
    forall i :: 0 <= i < |d| ==> -255 <= d[i] <= 255
  }

  /** The differences of seven bytes, the last byte's first, or what the seven forms below come to. */
  datatype Row = Row(x0: int, x1: int, x2: int, x3: int, x4: int, x5: int, x6: int)

  const ZERO := Row(0, 0, 0, 0, 0, 0, 0)

  predicate SmallRow(d: Row) {
    && -255 <= d.x0 <= 255 && -255 <= d.x1 <= 255 && -255 <= d.x2 <= 255 && -255 <= d.x3 <= 255
    && -255 <= d.x4 <= 255 && -255 <= d.x5 <= 255 && -255 <= d.x6 <= 255
  }

  function Scaled(k: int, c: Row): Row {
    Row(k * c.x0, k * c.x1, k * c.x2, k * c.x3, k * c.x4, k * c.x5, k * c.x6)
  }

  /** The differences read as a number. */
  function Value7(d: Row): int {
    d.x0 + 22511 * (d.x1 + 22511 * (d.x2 + 22511 * (d.x3 + 22511 * (d.x4 + 22511 * (d.x5 + 22511 * d.x6)))))
  }

  lemma {:induction false} ValueOfSeven(d: seq<int>)
    requires |d| == 7
    ensures Value(d) == Value7(Row(d[6], d[5], d[4], d[3], d[2], d[1], d[0]))
  {
    assert d[..6][..5] == d[..5] && d[..5][..4] == d[..4] && d[..4][..3] == d[..3];
    assert d[..3][..2] == d[..2] && d[..2][..1] == d[..1] && d[..1][..0] == [];
    assert Value(d[..1]) == d[0];
    assert Value(d[..2]) == d[1] + 22511 * d[0];
    assert Value(d[..3]) == d[2] + 22511 * Value(d[..2]);
    assert Value(d[..4]) == d[3] + 22511 * Value(d[..3]);
    assert Value(d[..5]) == d[4] + 22511 * Value(d[..4]);
    assert Value(d[..6]) == d[5] + 22511 * Value(d[..5]);
  }

  // Any integer multiple of a relation is again one, so reducing its coefficients modulo 2^64 gives
  // another multiple of 2^64. The forms below come from multipliers whose reduced coefficients are
  // small: mixed as `Mix` says, each is, once the ones before it vanish, too small to be any
  // multiple of 2^64 but zero.

  /** Form `i` of the differences. */
  function Form(i: nat, d: Row): int {
    match i
    case 1 =>
      4916545982979536 * d.x0 - 4097819404974800 * d.x1 - 12292256839964720 * d.x2 - 9832618802537680 * d.x3 +
      18847020588904912 * d.x4 - 9833218481213136 * d.x5 + 5347653925714896 * d.x6
    case 2 =>
      7375019165899743 * d.x0 - 1640219816849871 * d.x1 - 29500149688342849 * d.x2 + 4917019257984337 * d.x3 +
      6556074228100511 * d.x4 + 9834359094190193 * d.x5 + 20328684800815231 * d.x6
    case 3 =>
      9833601636906541 * d.x0 + 3277563888525059 * d.x1 - 5735600250603315 * d.x2 + 13111274635637347 * d.x3 -
      1856520507539 * d.x4 - 41792133145210429 * d.x5 + 1238527355165197 * d.x6
    case 4 =>
      -20486803587293839 * d.x0 - 9833710832819329 * d.x1 - 5735673081295727 * d.x2 + 11471782918750815 * d.x3 -
      13111747934126159 * d.x4 - 10652565761139393 * d.x5 + 7765109215295185 * d.x6
    case 5 =>
      4096800166579503 * d.x0 - 10651818676566047 * d.x1 + 24582730045886991 * d.x2 - 20486148324494079 * d.x3 +
      4916910052578031 * d.x4 + 4097751326746145 * d.x5 + 10759747834712015 * d.x6
    case 6 =>
      4914471063350839 * d.x0 - 50806335166572967 * d.x1 - 3278364731859945 * d.x2 - 12292184061015431 * d.x3 -
      8194291875093001 * d.x4 + 5736336876970649 * d.x5 + 3470921519418327 * d.x6
    case _ =>
      -12291346802331267 * d.x0 + 10653238364122803 * d.x1 + 7375856544247325 * d.x2 + 17210004165568531 * d.x3 +
      32778223212617405 * d.x4 + 819790848339315 * d.x5 + 7567713256768349 * d.x6
  }

  /** What form `i` multiplies the number by, which is its coefficient of the last byte. */
  function Factor(i: nat): int {
    match i
    case 1 => 4916545982979536
    case 2 => 7375019165899743
    case 3 => 9833601636906541
    case 4 => -20486803587293839
    case 5 => 4096800166579503
    case 6 => 4914471063350839
    case _ => -12291346802331267
  }

  /** How often the modulus was taken out to reduce form `i`. */
  function Quotient(i: nat, d: Row): int {
    match i
    case 1 =>
      6 * d.x1 + 135061 * d.x2 + 3040358156 * d.x3 + 68441502449704 * d.x4 + 1540686661645286767 * d.x5 +
      34682397440297050411925 * d.x6
    case 2 =>
      9 * d.x1 + 202597 * d.x2 + 4560661031 * d.x3 + 102665040468847 * d.x4 + 2311092725994214825 * d.x5 +
      52025008354855769925587 * d.x6
    case 3 =>
      12 * d.x1 + 270136 * d.x2 + 6081031489 * d.x3 + 136890099848895 * d.x4 + 3081533037698475345 * d.x5 +
      69368390211630378491244 * d.x6
    case 4 =>
      -25 * d.x1 - 562787 * d.x2 - 12668898164 * d.x3 - 285189566569790 * d.x4 - 6419902333052542706 * d.x5 -
      144518421419345788854779 * d.x6
    case 5 =>
      5 * d.x1 + 112542 * d.x2 + 2533432992 * d.x3 + 57030110082887 * d.x4 + 1283804808075869263 * d.x5 +
      28899730034595892979398 * d.x6
    case 6 =>
      6 * d.x1 + 135004 * d.x2 + 3039075040 * d.x3 + 68412618225425 * d.x4 + 1540036448872542165 * d.x5 +
      34667760500569796676322 * d.x6
    case _ =>
      -15 * d.x1 - 337652 * d.x2 - 7600884163 * d.x3 - 171103503393272 * d.x4 - 3851710964885945952 * d.x5 -
      86705865530547529325471 * d.x6
  }

  /** Mixture `i` of what the forms come to, form `i` with its share last. */
  function Mix(i: nat, v: Row): int {
    match i
    case 1 => v.x0
    case 2 => -v.x0 + 3 * v.x1
    case 3 => -v.x1 + 5 * v.x2
    case 4 => v.x0 - v.x1 - v.x2 + 2 * v.x3
    case 5 => -2 * v.x0 + 2 * v.x1 + v.x2 + 2 * v.x4
    case 6 => -5 * v.x0 - v.x1 + 2 * v.x2 + 2 * v.x3 - v.x4 + 12 * v.x5
    case _ => -3 * v.x0 + v.x1 + v.x2 - v.x3 - v.x4 + v.x5 + 2 * v.x6
  }

  function Share(i: nat): int {
    match i
    case 1 => 1
    case 2 => 3
    case 3 => 5
    case 4 => 2
    case 5 => 2
    case 6 => 12
    case _ => 2
  }

  lemma {:induction false} Reduced(i: nat, d: Row)
    ensures Form(i, d) == Factor(i) * Value7(d) - MODULUS * Quotient(i, d)
  {
  }

  function Forms(d: Row): Row {
    Row(Form(1, d), Form(2, d), Form(3, d), Form(4, d), Form(5, d), Form(6, d), Form(7, d))
  }

  lemma {:induction false} Multiple(i: nat, d: Row, m: int) returns (c: int)
    requires Value7(d) == m * MODULUS
    ensures Form(i, d) == MODULUS * c
  {
    Reduced(i, d);
    c := Factor(i) * m - Quotient(i, d);
  }

  lemma {:induction false} AllMultiples(d: Row, m: int) returns (c: Row)
    requires Value7(d) == m * MODULUS
    ensures Forms(d) == Scaled(MODULUS, c)
  {
    var c0 := Multiple(1, d, m);
    var c1 := Multiple(2, d, m);
    var c2 := Multiple(3, d, m);
    var c3 := Multiple(4, d, m);
    var c4 := Multiple(5, d, m);
    var c5 := Multiple(6, d, m);
    var c6 := Multiple(7, d, m);
    c := Row(c0, c1, c2, c3, c4, c5, c6);
  }

  lemma {:induction false} MixScaled(i: nat, c: Row)
    ensures Mix(i, Scaled(MODULUS, c)) == MODULUS * Mix(i, c)
  {
  }

  /** Mixture `i` of the forms, multiplied out. */
  function Mixture(i: nat, d: Row): int {
    match i
    case 1 =>
      4916545982979536 * d.x0 - 4097819404974800 * d.x1 - 12292256839964720 * d.x2 - 9832618802537680 * d.x3 +
      18847020588904912 * d.x4 - 9833218481213136 * d.x5 + 5347653925714896 * d.x6
    case 2 =>
      17208511514719693 * d.x0 - 822840045574813 * d.x1 - 76208192225063827 * d.x2 + 24583676576490691 * d.x3 +
      821202095396621 * d.x4 + 39336295763783715 * d.x5 + 55638400476730797 * d.x6
    case 3 =>
      41792989018632962 * d.x0 + 18028039259475166 * d.x1 + 822148435326274 * d.x2 + 60639353920202398 * d.x3 -
      6565356830638206 * d.x4 - 218795024820242338 * d.x5 - 14136048024989246 * d.x6
    case 4 =>
      -53265681994414426 * d.x0 - 25402585142288646 * d.x1 + 11472146936389990 * d.x2 - 4917346858657734 * d.x3 -
      13930692986940378 * d.x4 + 819424047528314 * d.x5 - 689339799675162 * d.x6
    case 5 =>
      22944148335905961 * d.x0 - 13110874288357177 * d.x1 + 9014074144414409 * d.x2 + 1638254107693223 * d.x3 -
      14749929136960279 * d.x4 + 5738524659088519 * d.x5 + 52720084774789897 * d.x6
    case 6 =>
      1612699612058546 * d.x0 - 590007180369174226 * d.x1 + 4095780396162034 * d.x2 - 33607870544210706 * d.x3 -
      230266798635586510 * d.x4 - 819373303922514 * d.x5 + 1831629109838962 * d.x6
    case _ =>
      -819236266729683 * d.x0 + 4916473357657603 * d.x1 - 5732688027008563 * d.x2 + 78668339977099619 * d.x3 +
      15570148372568173 * d.x4 + 11472614400661699 * d.x5 + 5605741361783565 * d.x6
  }

  lemma {:induction false} MixtureIs(i: nat, d: Row)
    ensures Mix(i, Forms(d)) == Mixture(i, d)
  {
  }

  lemma {:induction false} Narrow(i: nat, d: Row)
    requires SmallRow(d)
    ensures -Share(i) * MODULUS < Mixture(i, d) < Share(i) * MODULUS
  {
  }

  /** Differences are so small that no mixture of the forms comes to as much as the share of its own. */
  lemma {:induction false} Bounded(i: nat, d: Row, c: Row)
    requires SmallRow(d) && Forms(d) == Scaled(MODULUS, c)
    ensures -Share(i) < Mix(i, c) < Share(i)
  {
    MixScaled(i, c);
    MixtureIs(i, d);
    Narrow(i, d);
  }

  lemma {:induction false} TriangleIsZero(c: Row)
    requires forall i {:trigger Share(i)} :: 1 <= i <= 7 ==> -Share(i) < Mix(i, c) < Share(i)
    ensures c == ZERO
  {
    assert Share(1) == 1 && c.x0 == 0;
    assert Share(2) == 3 && c.x1 == 0;
    assert Share(3) == 5 && c.x2 == 0;
    assert Share(4) == 2 && c.x3 == 0;
    assert Share(5) == 2 && c.x4 == 0;
    assert Share(6) == 12 && c.x5 == 0;
    assert Share(7) == 2 && c.x6 == 0;
  }

  /** Back from the forms to the differences: taken this often, the forms come to the modulus times one of them. */
  function Back(j: nat, v: Row): int {
    match j
    case 1 => -492 * v.x0 + 298 * v.x1 + 385 * v.x2 - 665 * v.x3 + 72 * v.x4 + 166 * v.x5 - 12 * v.x6
    case 2 => 56 * v.x0 + 66 * v.x1 - 56 * v.x2 + 20 * v.x3 + 89 * v.x4 - 429 * v.x5 - 158 * v.x6
    case 3 => -438 * v.x0 - 114 * v.x1 + 147 * v.x2 - 109 * v.x3 + 352 * v.x4 + 35 * v.x5 + 187 * v.x6
    case 4 => -754 * v.x0 + 184 * v.x1 + 293 * v.x2 - 206 * v.x3 - 226 * v.x4 + 247 * v.x5 + 410 * v.x6
    case 5 => 355 * v.x0 - 112 * v.x1 - 52 * v.x2 - 185 * v.x3 - 103 * v.x4 + 102 * v.x5 + 348 * v.x6
    case 6 => -295 * v.x0 + 165 * v.x1 - 279 * v.x2 - 196 * v.x3 - 77 * v.x4 + 73 * v.x5 + 88 * v.x6
    case _ => -242 * v.x0 + 551 * v.x1 + 150 * v.x2 + 289 * v.x3 + 617 * v.x4 - 172 * v.x5 + 9 * v.x6
  }

  function Part(j: nat, d: Row): int {
    match j
    case 1 => d.x0
    case 2 => d.x1
    case 3 => d.x2
    case 4 => d.x3
    case 5 => d.x4
    case 6 => d.x5
    case _ => d.x6
  }

  lemma {:induction false} BackIs(j: nat, d: Row)
    ensures Back(j, Forms(d)) == MODULUS * Part(j, d)
  {
  }

  lemma {:induction false} FormsVanish(d: Row, m: int)
    requires SmallRow(d) && Value7(d) == m * MODULUS
    ensures Forms(d) == ZERO
  {
    var c := AllMultiples(d, m);
    forall i | 1 <= i <= 7 ensures -Share(i) < Mix(i, c) < Share(i) {
      Bounded(i, d, c);
    }
    TriangleIsZero(c);
  }

  /** The forms are independent, so where they vanish there is no difference. */
  lemma {:induction false} Independent(j: nat, d: Row, m: int)
    requires SmallRow(d) && Value7(d) == m * MODULUS
    ensures Part(j, d) == 0
  {
    FormsVanish(d, m);
    BackIs(j, d);
    assert Back(j, ZERO) == 0;
  }

  lemma {:induction false} SevenDigits(d: Row, m: int)
    requires SmallRow(d) && Value7(d) == m * MODULUS
    ensures d == ZERO
  {
    Independent(1, d, m);
    Independent(2, d, m);
    Independent(3, d, m);
    Independent(4, d, m);
    Independent(5, d, m);
    Independent(6, d, m);
    Independent(7, d, m);
  }

  /** At most seven byte differences cannot add up to a multiple of the modulus. */
  lemma {:induction false} NoShortRelation(d: seq<int>, m: int)
    requires |d| <= 7 && Small(d) && Value(d) == m * MODULUS
    ensures forall i :: 0 <= i < |d| ==> d[i] == 0
    decreases 7 - |d|
  {
    if |d| < 7 {
      LeadingZero(d);
      NoShortRelation([0] + d, m);
      forall i | 0 <= i < |d| ensures d[i] == 0 {
        assert ([0] + d)[i + 1] == d[i];
      }
    } else {
      ValueOfSeven(d);
      SevenDigits(Row(d[6], d[5], d[4], d[3], d[2], d[1], d[0]), m);
    }
  }

  // ---------------------------------------------------------------------------------- what never collides

  lemma {:induction false} WindowSeen(h: nat, a: seq<Byte>, b: seq<Byte>)
    requires |a| == |b| <= 7
    ensures HashFrom(h, a) == HashFrom(h, b) <==> a == b
  {
    if HashFrom(h, a) == HashFrom(h, b) {
      var q := HashDifference(h, a, b);
      NoShortRelation(Digits(a, b), -q);
      forall i | 0 <= i < |a| ensures a[i] == b[i] {
        assert Digits(a, b)[i] == 0;
      }
    }
  }

  /** Strings of equal length that differ only inside some seven consecutive bytes never share a hash. */
  lemma {:induction false} SevenByteWindow(a: seq<Byte>, b: seq<Byte>, lo: nat, hi: nat)
    requires |a| == |b| && lo <= hi <= |a| && hi - lo <= 7
    requires a[..lo] == b[..lo] && a[hi..] == b[hi..]
    ensures Hash(a) == Hash(b) <==> a == b
  {
    var u, v, v', w := a[..lo], a[lo..hi], b[lo..hi], a[hi..];
    assert a == u + (v + w) && b == u + (v' + w);
    var h := Hash(u);
    HashAppend(1, u, v + w);
    HashAppend(1, u, v' + w);
    HashAppend(h, v, w);
    HashAppend(h, v', w);
    HashBelow(1, u);
    HashBelow(h, v);
    HashBelow(h, v');
    SameTail(HashFrom(h, v), HashFrom(h, v'), w);
    WindowSeen(h, v, v');
  }

  /** The header's promise about AB and BA: swapping two adjacent bytes that differ changes the hash. */
  lemma {:induction false} AdjacentSwap(a: seq<Byte>, k: nat)
    requires k + 1 < |a| && a[k] != a[k + 1]
    ensures Hash(a) != Hash(a[k := a[k + 1]][k + 1 := a[k]])
  {
    var b := a[k := a[k + 1]][k + 1 := a[k]];
    assert b[k] == a[k + 1];
    SevenByteWindow(a, b, k, k + 2);
  }

  /** Exactly which strings of equal length collide: those whose bytewise difference, read in base
      22511, is a multiple of 2^64. */
  lemma {:induction false} CollideIff(a: seq<Byte>, b: seq<Byte>)
    requires |a| == |b|
    ensures Hash(a) == Hash(b) <==> Value(Digits(a, b)) % MODULUS == 0
  {
    var q := HashDifference(1, a, b);
    HashBelow(1, a);
    HashBelow(1, b);
    MultipleOf(Hash(a) - Hash(b), Value(Digits(a, b)), q);
  }

  lemma {:induction false} MultipleOf(x: int, v: int, q: int)
    requires x == v + q * MODULUS && -(MODULUS as int) < x < MODULUS
    ensures x == 0 <==> v % MODULUS == 0
  {
  }

  /** Seven is the limit: two strings of eight bytes with one hash. */
  lemma {:induction false} EightBytesCollide()
    ensures Hash([141, 0, 117, 0, 98, 0, 90, 79]) == Hash([0, 138, 0, 75, 0, 124, 0, 0])
  {
    var a: seq<Byte>, b: seq<Byte> := [141, 0, 117, 0, 98, 0, 90, 79], [0, 138, 0, 75, 0, 124, 0, 0];
    assert Digits(a, b) == [141, -138, 117, -75, 98, -124, 90, 79];
    EightDigits();
    CollideBy(a, b, 22389480881143);
  }

  lemma {:induction false} CollideBy(a: seq<Byte>, b: seq<Byte>, times: nat)
    requires |a| == |b| && Value(Digits(a, b)) == times * MODULUS
    ensures Hash(a) == Hash(b)
  {
    CollideIff(a, b);
  }

  lemma {:induction false} EightDigits()
    ensures Value([141, -138, 117, -75, 98, -124, 90, 79]) == 22389480881143 * MODULUS
  {
    var d := [141, -138, 117, -75, 98, -124, 90, 79];
    assert d[..2][..1] == d[..1];
    assert d[..3][..2] == d[..2];
    assert d[..4][..3] == d[..3];
    assert d[..5][..4] == d[..4];
    assert d[..6][..5] == d[..5];
    assert d[..7][..6] == d[..6];
    assert d[..1][..0] == [];
    assert Value(d[..1]) == 141;
    assert Value(d[..2]) == 3173913;
    assert Value(d[..3]) == 71447955660;
    assert Value(d[..4]) == 1608364929862185;
    assert Value(d[..5]) == 36205902936127646633;
    assert Value(d[..6]) == 815031080995169453355339;
    assert Value(d[..7]) == 18347164664282259564482036319;
  }

  // ---------------------------------------------------------------------------------- short strings

  /** The least hash of a string of `n` bytes, as an unbounded number. */
  function Lowest(n: nat): nat {
    if n == 0 then 1 else Lowest(n - 1) * MULTIPLIER + INCREMENT
  }

  /** Up to four bytes nothing wraps around, so the hash lies in a band that depends on the length. */
  lemma {:induction false} Band(a: seq<Byte>)
    requires |a| <= 4
    ensures Lowest(|a|) <= Hash(a) < 2 * Lowest(|a|)
  {
    if a != [] {
      var n := |a| - 1;
      Band(a[..n]);
      assert Lowest(0) == 1;
      assert Lowest(1) == 55980;
      assert Lowest(2) == 55980 * MULTIPLIER + INCREMENT;
      assert Lowest(3) == Lowest(2) * MULTIPLIER + INCREMENT;
      assert Lowest(4) == Lowest(3) * MULTIPLIER + INCREMENT;
    }
  }

  /** The header's promise about one zero byte and two: strings of at most four bytes, of whatever
      lengths, never share a hash. */
  lemma {:induction false} ShortStrings(a: seq<Byte>, b: seq<Byte>)
    requires |a| <= |b| <= 4
    ensures Hash(a) == Hash(b) <==> a == b
  {
    Band(a);
    Band(b);
    if |a| < |b| {
      BandsApart(|a|, |b|);
    } else {
      WindowSeen(1, a, b);
    }
  }

  lemma {:induction false} BandsApart(m: nat, n: nat)
    requires m < n
    ensures 2 * Lowest(m) <= Lowest(n)
    decreases n
  {
    if m + 1 < n {
      BandsApart(m, n - 1);
    }
  }
}
