/** Which CRC the frames carry: the checksum is the remainder of a polynomial division over GF(2), by the
    generator of section 8 of RFC 1952, given by its exponents.  Polynomials are lists of coefficients, the
    highest power first. */
module CrcPolynomial {
  import opened Bytes
  import opened Crc

  const EXPONENTS := {32, 26, 23, 22, 16, 12, 11, 10, 8, 7, 5, 4, 2, 1, 0}

  function Generator(): (g: seq<bool>)
    ensures |g| == 33 && g[0]
  {
    seq(33, i requires 0 <= i < 33 => (32 - i) in EXPONENTS)
  }

  /** Sum, which over GF(2) is also difference. */
  function Plus(a: seq<bool>, b: seq<bool>): (s: seq<bool>)
    requires |a| == |b|
    ensures |s| == |a| && forall i :: 0 <= i < |a| ==> s[i] == (a[i] != b[i])
  {
    seq(|a|, i requires 0 <= i < |a| => a[i] != b[i])
  }

  /** The product of `q` with the generator, by the rule of the first coefficient. */
  function Times(q: seq<bool>): (p: seq<bool>)
    ensures |p| == |q| + 32
  {
    if q == [] then Zeros(32) else Plus(Term(q), [false] + Times(q[1..]))
  }

  /** The first coefficient's multiple of the generator. */
  function Term(q: seq<bool>): (p: seq<bool>)
    requires q != []
    ensures |p| == |q| + 32 && p[0] == q[0]
  {
    if q[0] then Generator() + Zeros(|q| - 1) else Zeros(|q| + 32)
  }

  /** One step of the division cancels the first coefficient. */
  function Cancel(m: seq<bool>): (s: seq<bool>)
    requires |m| >= 33
    ensures |s| == |m| - 1
  {
    if m[0] then Plus(m, Generator() + Zeros(|m| - 33))[1..] else m[1..]
  }

  /** Long division: cancel the first coefficient with the generator until 32 are left. */
  function Remainder(m: seq<bool>): (r: seq<bool>)
    requires |m| >= 32
    ensures |r| == 32
    decreases |m|
  {
    if |m| == 32 then m
    else Remainder(Cancel(m))
  }

  lemma PlusMoves(u: seq<bool>, a: seq<bool>, v: seq<bool>)
    requires |u| == |a| == |v|
    ensures u == Plus(a, v) <==> Plus(u, a) == v
  {
    if Plus(u, a) == v {
      assert forall i :: 0 <= i < |u| ==> Plus(u, a)[i] == v[i];
      assert u == Plus(a, v);
    }
    if u == Plus(a, v) {
      assert Plus(u, a) == v;
    }
  }

  /** Putting a multiple of the generator back. */
  lemma TimesCancels(m: seq<bool>, q: seq<bool>, r: seq<bool>)
    requires q != [] && |r| == 32 && |m| == |q| + 32 && q[0] == m[0]
    ensures m == Plus(Times(q), Zeros(|q|) + r) <==> Cancel(m) == Plus(Times(q[1..]), Zeros(|q| - 1) + r)
  {
    hide Times, Term, Cancel, Plus;
    var rest := Plus(Times(q[1..]), Zeros(|q| - 1) + r);
    var whole := Plus(Times(q), Zeros(|q|) + r);
    FirstTerm(q, r);
    CancelIs(m, q);
    PlusMoves(m[1..], Term(q)[1..], rest);
    assert m == [m[0]] + m[1..];
    assert whole[1..] == Plus(Term(q)[1..], rest);
  }

  lemma CancelIs(m: seq<bool>, q: seq<bool>)
    requires q != [] && |m| == |q| + 32 && q[0] == m[0]
    ensures Cancel(m) == Plus(m[1..], Term(q)[1..])
  {
    hide Generator;
  }

  lemma FirstTerm(q: seq<bool>, r: seq<bool>)
    requires q != [] && |r| == 32
    ensures Plus(Times(q), Zeros(|q|) + r) == [q[0]] + Plus(Term(q)[1..], Plus(Times(q[1..]), Zeros(|q| - 1) + r))
  {
    hide Term, Plus, Zeros, Times;
    TimesFirst(q);
    ZerosFirst(|q|, r);
    PlusFront(Term(q), Times(q[1..]), Zeros(|q| - 1) + r);
  }

  lemma TimesFirst(q: seq<bool>)
    requires q != []
    ensures Times(q) == Plus(Term(q), [false] + Times(q[1..]))
  {
  }

  lemma ZerosFirst(n: nat, r: seq<bool>)
    requires n > 0
    ensures Zeros(n) + r == [false] + (Zeros(n - 1) + r)
  {
    assert Zeros(n) == [false] + Zeros(n - 1);
  }

  lemma PlusFront(x: seq<bool>, v: seq<bool>, w: seq<bool>)
    requires |x| - 1 == |v| == |w|
    ensures Plus(Plus(x, [false] + v), [false] + w) == [x[0]] + Plus(x[1..], Plus(v, w))
  {
  }

  /** The remainder is what is left when a multiple of the generator is taken away. */
  lemma {:induction false} RemainderDivides(m: seq<bool>) returns (q: seq<bool>)
    requires |m| >= 32
    ensures |q| == |m| - 32 && m == Plus(Times(q), Zeros(|q|) + Remainder(m))
    decreases |m|
  {
    hide Generator, Times, Cancel;
    if |m| == 32 {
      q := [];
      NoQuotient(m);
    } else {
      q := RemainderDivides(Cancel(m));
      assert ([m[0]] + q)[1..] == q;
      TimesCancels(m, [m[0]] + q, Remainder(m));
      q := [m[0]] + q;
    }
  }

  lemma NoQuotient(r: seq<bool>)
    requires |r| == 32
    ensures r == Plus(Times([]), Zeros(0) + r)
  {
  }

  /** There is only one such remainder. */
  lemma {:induction false} RemainderUnique(m: seq<bool>, q: seq<bool>, r: seq<bool>)
    requires |r| == 32 && |m| == |q| + 32 && m == Plus(Times(q), Zeros(|q|) + r)
    ensures r == Remainder(m)
    decreases |q|
  {
    hide Generator, Cancel, Times, Plus;
    if q == [] {
      NoQuotient(r);
    } else {
      FirstCoefficient(q);
      TimesCancels(m, q, r);
      RemainderUnique(Cancel(m), q[1..], r);
    }
  }

  lemma FirstCoefficient(q: seq<bool>)
    requires q != []
    ensures Times(q)[0] == q[0]
  {
    hide Term;
  }

  // ---------------------------------------------------------------- the register is a remainder

  /** The register's polynomial, bit by bit the generator without its highest power. */
  lemma PolyIsGenerator()
    ensures POLY == Generator()[1..]
  {
    hide NatBits, Generator;
    Bits32(0xEDB8_8320, 0x20, 0x83, 0xB8, 0xED);
    PolyBytes();
    GeneratorBits();
    var g := Generator();
    assert g[1..] == g[1..9] + (g[9..17] + (g[17..25] + g[25..33]));
  }

  lemma PolyBytes()
    ensures NatBits(0x20, 8) == [false, false, false, false, false, true, false, false]
    ensures NatBits(0x83, 8) == [true, true, false, false, false, false, false, true]
    ensures NatBits(0xB8, 8) == [false, false, false, true, true, true, false, true]
    ensures NatBits(0xED, 8) == [true, false, true, true, false, true, true, true]
  {
    hide NatBits;
    ByteBits(0x20);
    ByteBits(0x83);
    ByteBits(0xB8);
    ByteBits(0xED);
  }

  lemma ByteBits(n: nat)
    ensures NatBits(n, 8) == [n % 2 == 1, n / 2 % 2 == 1, n / 4 % 2 == 1, n / 8 % 2 == 1] +
                             [n / 16 % 2 == 1, n / 32 % 2 == 1, n / 64 % 2 == 1, n / 128 % 2 == 1]
  {
    hide NatBits;
    FourBits(n, 4);
    FourBits(n / 16, 0);
    NoBits(n / 16 / 16);
    var low := [n % 2 == 1, n / 2 % 2 == 1, n / 4 % 2 == 1, n / 8 % 2 == 1];
    assert low + NatBits(n / 16, 4) == NatBits(n, 8);
  }

  lemma FourBits(n: nat, k: nat)
    ensures n / 16 / 2 == n / 32 && n / 16 / 4 == n / 64 && n / 16 / 8 == n / 128
    ensures NatBits(n, 4 + k) == [n % 2 == 1, n / 2 % 2 == 1, n / 4 % 2 == 1, n / 8 % 2 == 1] + NatBits(n / 16, k)
  {
    hide NatBits;
    assert n / 2 / 2 == n / 4 && n / 4 / 2 == n / 8 && n / 8 / 2 == n / 16;
    FirstBit(n, 4 + k);
    FirstBit(n / 2, 3 + k);
    FirstBit(n / 4, 2 + k);
    FirstBit(n / 8, 1 + k);
  }

  lemma GeneratorBits()
    ensures Generator()[1..9] == [false, false, false, false, false, true, false, false]
    ensures Generator()[9..17] == [true, true, false, false, false, false, false, true]
    ensures Generator()[17..25] == [false, false, false, true, true, true, false, true]
    ensures Generator()[25..33] == [true, false, true, true, false, true, true, true]
  {
  }

  lemma Bits32(n: nat, a: nat, b: nat, c: nat, d: nat)
    requires a < 256 && b < 256 && c < 256 && d < 256 && n == a + 256 * (b + 256 * (c + 256 * d))
    ensures NatBits(n, 32) == NatBits(a, 8) + (NatBits(b, 8) + (NatBits(c, 8) + NatBits(d, 8)))
  {
    hide NatBits;
    var y := SplitByte(c, d, 8);
    var x := SplitByte(b, y, 16);
    var z := SplitByte(a, x, 24);
  }

  lemma SplitByte(low: nat, high: nat, k: nat) returns (n: nat)
    requires low < 256
    ensures n == low + 256 * high && NatBits(n, 8 + k) == NatBits(low, 8) + NatBits(high, k)
  {
    hide NatBits;
    n := low + 256 * high;
    assert Pow2(8) == 256;
    SplitBits(low, high, 8, k);
  }

  lemma {:induction false} SplitBits(low: nat, high: nat, j: nat, k: nat)
    requires low < Pow2(j)
    ensures NatBits(low + Pow2(j) * high, j + k) == NatBits(low, j) + NatBits(high, k)
    decreases j
  {
    hide NatBits;
    if j == 0 {
      NoBits(low);
    } else {
      var more := Pow2(j - 1) * high;
      assert Pow2(j) * high == 2 * more;
      Halves(low, more);
      FirstBit(low + 2 * more, j + k);
      FirstBit(low, j);
      SplitBits(low / 2, high, j - 1, k);
      Assoc([low % 2 == 1], NatBits(low / 2, j - 1), NatBits(high, k));
    }
  }

  lemma NoBits(n: nat)
    ensures NatBits(n, 0) == []
  {
  }

  lemma FirstBit(n: nat, k: nat)
    requires k > 0
    ensures NatBits(n, k) == [n % 2 == 1] + NatBits(n / 2, k - 1)
  {
  }

  lemma Halves(low: nat, more: nat)
    ensures (low + 2 * more) % 2 == low % 2 && (low + 2 * more) / 2 == low / 2 + more
  {
  }

  /** A message with `c` added to its first 32 coefficients. */
  function WithFront(m: seq<bool>, c: Reg): (s: seq<bool>)
    requires |m| >= 32
    ensures |s| == |m|
  {
    seq(|m|, i requires 0 <= i < |m| => if i < 32 then m[i] != c[i] else m[i])
  }

  /** Absorbing bits divides: the register is the remainder of the bits, followed by 32 zeros and with the
      register's first value added in front. */
  lemma {:induction false} AbsorbDivides(c: Reg, bits: seq<bool>)
    ensures Absorb(c, bits) == Remainder(WithFront(bits + Zeros(32), c))
    decreases |bits|
  {
    var m := WithFront(bits + Zeros(32), c);
    if bits == [] {
      assert m == c;
    } else {
      var x := Xor(c, Low([bits[0]]));
      var c' := Shift(x);
      AbsorbDivides(c', bits[1..]);
      OneStep(c, bits);
      assert Cancel(m) == WithFront(bits[1..] + Zeros(32), c');
    }
  }

  lemma OneStep(c: Reg, bits: seq<bool>)
    requires bits != []
    ensures var m := WithFront(bits + Zeros(32), c);
            Cancel(m) == WithFront(bits[1..] + Zeros(32), Shift(Xor(c, Low([bits[0]]))))
  {
    hide Generator, POLY;
    var m := WithFront(bits + Zeros(32), c);
    var x := Xor(c, Low([bits[0]]));
    var next := Cancel(m);
    var want := WithFront(bits[1..] + Zeros(32), Shift(x));
    PolyIsGenerator();
    assert m[0] == x[0];
    forall i | 0 <= i < |next| ensures next[i] == want[i] {
      if i < 32 {
        ShiftAt(x, i);
        assert Generator()[i + 1] == Generator()[1..][i];
      }
    }
  }

  /** The message as the sender divides it: its bits, the first 32 of them complemented, and 32 zeros. */
  function Dividend(bits: seq<bool>): (m: seq<bool>)
    ensures |m| == |bits| + 32
  {
    seq(|bits| + 32, i requires 0 <= i < |bits| + 32 => (i < |bits| && bits[i]) != (i < 32))
  }

  /** The checksum is the complement of the remainder of the message. */
  lemma CrcIsRemainder(data: seq<byte>)
    ensures forall i :: 0 <= i < 32 ==> Crc32(data)[i] == !Remainder(Dividend(Bits(data)))[i]
  {
    AbsorbDivides(ONES, Bits(data));
    OnesAre();
    assert WithFront(Bits(data) + Zeros(32), ONES) == Dividend(Bits(data));
  }

  lemma OnesAre()
    ensures forall i :: 0 <= i < 32 ==> ONES[i]
  {
    hide NatBits;
    Bits32(0xFFFF_FFFF, 0xFF, 0xFF, 0xFF, 0xFF);
    AllSet();
  }

  lemma AllSet()
    ensures forall i :: 0 <= i < 8 ==> NatBits(0xFF, 8)[i]
  {
    assert NatBits(0xFF, 8) == [true, true, true, true, true, true, true, true];
  }
}
