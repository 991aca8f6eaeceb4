/** The frame checksum: the reflected CRC-32 of section 8 of RFC 1952.  The definition absorbs one
    message bit at a time; the program looks up a table built at start-up, one byte at a time.
    A 32-bit register is its list of bits, least significant first. */
module Crc {
  import opened Bytes

  const POLY := NatBits(0xEDB8_8320, 32)
  const ONES := NatBits(0xFFFF_FFFF, 32)

  type Reg = s: seq<bool> | |s| == 32 witness Zeros(32)

  function Zeros(n: nat): (z: seq<bool>)
    ensures |z| == n
  {
    seq(n, _ => false)
  }

  function Xor(a: Reg, b: Reg): Reg {
    seq(32, i requires 0 <= i < 32 => a[i] != b[i])
  }

  /** Logical shift towards the low end. */
  function Shr(a: Reg, n: nat): Reg
    requires n <= 32
  {
    a[n..] + Zeros(n)
  }

  /** At most 32 bits as the low bits of a register. */
  function Low(bits: seq<bool>): Reg
    requires |bits| <= 32
  {
    bits + Zeros(32 - |bits|)
  }

  /** The low `k` bits of a number, least significant first, and the number they denote. */
  function NatBits(n: nat, k: nat): (bits: seq<bool>)
    ensures |bits| == k
  {
    if k == 0 then [] else [n % 2 == 1] + NatBits(n / 2, k - 1)
  }

  function BitsNat(bits: seq<bool>): (n: nat)
    ensures n < Pow2(|bits|)
  {
    if bits == [] then 0 else (if bits[0] then 1 else 0) + 2 * BitsNat(bits[1..])
  }

  lemma {:induction false} BitsNatInverts(n: nat, k: nat)
    requires n < Pow2(k)
    ensures BitsNat(NatBits(n, k)) == n
  {
    if k != 0 {
      BitsNatInverts(n / 2, k - 1);
      assert NatBits(n, k)[1..] == NatBits(n / 2, k - 1);
    }
  }

  lemma {:induction false} NatBitsInverts(bits: seq<bool>)
    ensures NatBits(BitsNat(bits), |bits|) == bits
  {
    if bits != [] {
      NatBitsInverts(bits[1..]);
    }
  }

  lemma {:induction false} TopBit(n: nat, k: nat)
    requires k > 0 && Pow2(k - 1) <= n < Pow2(k)
    ensures NatBits(n, k)[k - 1]
  {
    if k > 1 {
      TopBit(n / 2, k - 1);
    }
  }

  /** The bits of a byte in transmission order, least significant first. */
  function BitsOf(b: byte): (bits: seq<bool>)
    ensures |bits| == 8
  {
    NatBits(b as int, 8)
  }

  function ByteOf(s: seq<bool>): byte
    requires |s| == 8
  {
    assert Pow2(8) == 256;
    BitsNat(s) as byte
  }

  lemma ByteOfBitsOf(b: byte)
    ensures ByteOf(BitsOf(b)) == b
  {
    assert Pow2(8) == 256;
    BitsNatInverts(b as int, 8);
  }

  lemma BitsOfByteOf(s: seq<bool>)
    requires |s| == 8
    ensures BitsOf(ByteOf(s)) == s
  {
    NatBitsInverts(s);
  }

  function Bits(data: seq<byte>): (bits: seq<bool>)
    ensures |bits| == 8 * |data|
  {
    if data == [] then [] else BitsOf(data[0]) + Bits(data[1..])
  }

  /** One shift of the register. */
  function Shift(c: Reg): Reg {
    if c[0] then Xor(POLY, Shr(c, 1)) else Shr(c, 1)
  }

  function Shifts(c: Reg, n: nat): Reg
    decreases n
  {
    if n == 0 then c else Shifts(Shift(c), n - 1)
  }

  /** The register after absorbing message bits, first bit first. */
  function Absorb(c: Reg, bits: seq<bool>): Reg
    decreases |bits|
  {
    if bits == [] then c else Absorb(Shift(Xor(c, Low([bits[0]]))), bits[1..])
  }

  /** Bit-serial CRC-32: the meaning of a frame's checksum. */
  function Crc32(data: seq<byte>): Reg {
    Xor(Absorb(ONES, Bits(data)), ONES)
  }

  // ---------------------------------------------------------------- algebra of the register

  lemma ShiftAt(c: Reg, i: nat)
    requires i < 32
    ensures Shift(c)[i] == ((c[0] && POLY[i]) != (i < 31 && c[i + 1]))
  {
    hide NatBits;
  }

  lemma ShiftLinear(a: Reg, b: Reg)
    ensures Shift(Xor(a, b)) == Xor(Shift(a), Shift(b))
  {
    forall i | 0 <= i < 32 ensures Shift(Xor(a, b))[i] == Xor(Shift(a), Shift(b))[i] {
      ShiftAt(Xor(a, b), i);
      ShiftAt(a, i);
      ShiftAt(b, i);
    }
  }

  lemma {:induction false} ShiftsLinear(a: Reg, b: Reg, n: nat)
    ensures Shifts(Xor(a, b), n) == Xor(Shifts(a, n), Shifts(b, n))
    decreases n
  {
    if n != 0 {
      ShiftLinear(a, b);
      ShiftsLinear(Shift(a), Shift(b), n - 1);
    }
  }

  lemma PolyTop()
    ensures POLY[31]
  {
    assert Pow2(8) == 0x100;
    assert Pow2(16) == 0x1_0000;
    assert Pow2(24) == 0x100_0000;
    assert Pow2(31) == 0x8000_0000;
    TopBit(0xEDB8_8320, 32);
  }

  /** The top bit of the polynomial is set, so a shift loses nothing. */
  lemma ShiftInjective(a: Reg, b: Reg)
    requires Shift(a) == Shift(b)
    ensures a == b
  {
    hide Shift, NatBits;
    PolyTop();
    ShiftAt(a, 31);
    ShiftAt(b, 31);
    forall i | 1 <= i < 32 ensures a[i] == b[i] {
      ShiftAt(a, i - 1);
      ShiftAt(b, i - 1);
    }
  }

  lemma {:induction false} ShiftsInjective(a: Reg, b: Reg, n: nat)
    requires Shifts(a, n) == Shifts(b, n)
    ensures a == b
    decreases n
  {
    if n != 0 {
      ShiftsInjective(Shift(a), Shift(b), n - 1);
      ShiftInjective(a, b);
    }
  }

  lemma XorInjective(a: Reg, b: Reg, x: Reg)
    requires Xor(a, x) == Xor(b, x) || Xor(x, a) == Xor(x, b)
    ensures a == b
  {
    forall i | 0 <= i < 32 ensures a[i] == b[i] {
      assert Xor(a, x)[i] == (a[i] != x[i]) && Xor(b, x)[i] == (b[i] != x[i]);
      assert Xor(x, a)[i] == (a[i] != x[i]) && Xor(x, b)[i] == (b[i] != x[i]);
    }
  }

  lemma {:induction false} AbsorbConcat(c: Reg, x: seq<bool>, y: seq<bool>)
    ensures Absorb(c, x + y) == Absorb(Absorb(c, x), y)
    decreases |x|
  {
    if x == [] {
      assert x + y == y;
    } else {
      assert (x + y)[1..] == x[1..] + y;
      AbsorbConcat(Shift(Xor(c, Low([x[0]]))), x[1..], y);
    }
  }

  /** Equal continuations never merge two different registers. */
  lemma {:induction false} AbsorbInjective(a: Reg, b: Reg, bits: seq<bool>)
    requires Absorb(a, bits) == Absorb(b, bits)
    ensures a == b
    decreases |bits|
  {
    if bits != [] {
      var first := Low([bits[0]]);
      AbsorbInjective(Shift(Xor(a, first)), Shift(Xor(b, first)), bits[1..]);
      ShiftInjective(Xor(a, first), Xor(b, first));
      XorInjective(a, b, first);
    }
  }

  /** Absorbing up to 32 bits is xoring them in at the low end and shifting. */
  lemma {:induction false} AbsorbWord(c: Reg, bits: seq<bool>)
    requires |bits| <= 32
    ensures Absorb(c, bits) == Shifts(Xor(c, Low(bits)), |bits|)
    decreases |bits|
  {
    if bits == [] {
      assert Xor(c, Low(bits)) == c;
    } else {
      AbsorbWord(Shift(Xor(c, Low([bits[0]]))), bits[1..]);
      ShiftPastFirst(c, bits);
    }
  }

  lemma ShiftPastFirst(c: Reg, bits: seq<bool>)
    requires 1 <= |bits| <= 32
    ensures Shift(Xor(c, Low(bits))) == Xor(Shift(Xor(c, Low([bits[0]]))), Low(bits[1..]))
  {
    var x, y := Xor(c, Low(bits)), Xor(c, Low([bits[0]]));
    forall i | 0 <= i < 32 ensures Shift(x)[i] == Xor(Shift(y), Low(bits[1..]))[i] {
      ShiftAt(x, i);
      ShiftAt(y, i);
    }
  }

  // ---------------------------------------------------------------- table-driven computation

  /** The table entry that `crc32_init` stores at index `v`. */
  function Entry(v: byte): Reg {
    Shifts(Low(BitsOf(v)), 8)
  }

  /** The index the program looks up: the low byte of the register xored with the input byte. */
  function Index(c: Reg, b: byte): byte {
    ByteOf(Xor(c, Low(BitsOf(b)))[..8])
  }

  /** Registers whose low bits are zero are only moved down. */
  lemma {:induction false} ShiftsOfHigh(x: Reg, n: nat)
    requires n <= 32 && forall i :: 0 <= i < n ==> !x[i]
    ensures Shifts(x, n) == Shr(x, n)
    decreases n
  {
    hide NatBits;
    if n == 0 {
      assert Shr(x, 0) == x;
    } else {
      ShiftsOfHigh(Shift(x), n - 1);
      assert Shr(Shr(x, 1), n - 1) == Shr(x, n);
    }
  }

  /** One table look-up absorbs one byte. */
  lemma TableStep(c: Reg, b: byte)
    ensures Absorb(c, BitsOf(b)) == Xor(Entry(Index(c, b)), Shr(c, 8))
  {
    var x := Xor(c, Low(BitsOf(b)));
    var low, high := Low(x[..8]), Zeros(8) + c[8..];
    AbsorbWord(c, BitsOf(b));
    assert x == Xor(low, high);
    ShiftsLinear(low, high, 8);
    ShiftsOfHigh(high, 8);
    assert Shr(high, 8) == Shr(c, 8);
    BitsOfByteOf(x[..8]);
  }

  ghost predicate IsCrcTable(table: array<Reg>)
    reads table
  {
    table.Length == 256 && forall v: byte :: table[v as int] == Entry(v)
  }

  /** `crc32_init`: fill the table with eight shifts of every index. */
  method CrcInit(table: array<Reg>)
    requires table.Length == 256
    modifies table
    ensures IsCrcTable(table)
  {
    for i := 0 to 256
      invariant forall v: byte :: v as int < i ==> table[v as int] == Entry(v)
    {
      var c := Low(BitsOf(i as byte));
      for k := 0 to 8
        invariant Shifts(c, 8 - k) == Entry(i as byte)
      {
        c := if c[0] then Xor(POLY, Shr(c, 1)) else Shr(c, 1);
      }
      table[i] := c;
      forall v: byte | v as int < i + 1 ensures table[v as int] == Entry(v) {
        if v as int == i {
          assert v == i as byte;
        }
      }
    }
  }

  /** `crc32_buf`: the table-driven loop computes the bit-serial CRC. */
  method CrcBuf(table: array<Reg>, data: seq<byte>) returns (r: Reg)
    requires IsCrcTable(table)
    ensures r == Crc32(data)
  {
    var crc: Reg := ONES;
    var i := 0;
    while i < |data|
      invariant 0 <= i <= |data|
      invariant Absorb(crc, Bits(data[i..])) == Absorb(ONES, Bits(data))
    {
      AbsorbByte(crc, data[i..]);
      assert data[i..][1..] == data[i + 1..];
      crc := Xor(table[Index(crc, data[i]) as int], Shr(crc, 8));
      i := i + 1;
    }
    return Xor(crc, ONES);
  }

  lemma AbsorbByte(c: Reg, data: seq<byte>)
    requires data != []
    ensures Absorb(c, Bits(data)) == Absorb(Xor(Entry(Index(c, data[0])), Shr(c, 8)), Bits(data[1..]))
  {
    AbsorbConcat(c, BitsOf(data[0]), Bits(data[1..]));
    TableStep(c, data[0]);
  }

  /** `enqueue_frame` sends zero instead of computing the checksum of an empty payload. */
  method CrcOfPayload(table: array<Reg>, payload: seq<byte>) returns (crc: Reg)
    requires IsCrcTable(table)
    ensures crc == Crc32(payload)
  {
    if |payload| != 0 {
      crc := CrcBuf(table, payload);
    } else {
      crc := Zeros(32);
      assert Crc32([]) == Zeros(32);
    }
  }

  // ---------------------------------------------------------------- the four checksum bytes

  /** `u32::to_le_bytes`. */
  function RegBytes(c: Reg): (s: seq<byte>)
    ensures |s| == 4
  {
    [ByteOf(c[0..8]), ByteOf(c[8..16]), ByteOf(c[16..24]), ByteOf(c[24..32])]
  }

  /** `u32::from_le_bytes`. */
  function BytesReg(s: seq<byte>): Reg
    requires |s| == 4
  {
    BitsOf(s[0]) + BitsOf(s[1]) + BitsOf(s[2]) + BitsOf(s[3])
  }

  lemma BytesRegInverts(c: Reg)
    ensures BytesReg(RegBytes(c)) == c
  {
    BitsOfByteOf(c[0..8]);
    BitsOfByteOf(c[8..16]);
    BitsOfByteOf(c[16..24]);
    BitsOfByteOf(c[24..32]);
    assert c == c[0..8] + c[8..16] + c[16..24] + c[24..32];
  }

  lemma RegBytesInverts(s: seq<byte>)
    requires |s| == 4
    ensures RegBytes(BytesReg(s)) == s
  {
    var c := BytesReg(s);
    assert c[0..8] == BitsOf(s[0]) && c[8..16] == BitsOf(s[1]);
    assert c[16..24] == BitsOf(s[2]) && c[24..32] == BitsOf(s[3]);
    ByteOfBitsOf(s[0]);
    ByteOfBitsOf(s[1]);
    ByteOfBitsOf(s[2]);
    ByteOfBitsOf(s[3]);
  }

  // ---------------------------------------------------------------- burst errors

  /** Two bit strings that differ only inside a window of at most 32 bits leave different registers. */
  lemma BurstChangesRegister(c: Reg, p: seq<bool>, x: seq<bool>, y: seq<bool>, q: seq<bool>)
    requires |x| == |y| <= 32 && x != y
    ensures Absorb(c, p + x + q) != Absorb(c, p + y + q)
  {
    var r := Absorb(c, p);
    AbsorbConcat(c, p, x);
    AbsorbConcat(c, p + x, q);
    AbsorbConcat(c, p, y);
    AbsorbConcat(c, p + y, q);
    assert x == Low(x)[..|x|] && y == Low(y)[..|y|];
    if Absorb(c, p + x + q) == Absorb(c, p + y + q) {
      AbsorbInjective(Absorb(r, x), Absorb(r, y), q);
      AbsorbWord(r, x);
      AbsorbWord(r, y);
      ShiftsInjective(Xor(r, Low(x)), Xor(r, Low(y)), |x|);
      XorInjective(Low(x), Low(y), r);
    }
  }

  /** Different bytes have different bits. */
  lemma {:induction false} BitsInjective(u: seq<byte>, v: seq<byte>)
    requires |u| == |v| && Bits(u) == Bits(v)
    ensures u == v
    decreases |u|
  {
    if u != [] {
      assert BitsOf(u[0]) == Bits(u)[..8] && BitsOf(v[0]) == Bits(v)[..8];
      assert Bits(u[1..]) == Bits(u)[8..] && Bits(v[1..]) == Bits(v)[8..];
      ByteOfBitsOf(u[0]);
      ByteOfBitsOf(v[0]);
      BitsInjective(u[1..], v[1..]);
      assert u == [u[0]] + u[1..] && v == [v[0]] + v[1..];
    }
  }

  lemma WindowChangesRegister(c: Reg, a: seq<bool>, b: seq<bool>, at: nat)
    requires |a| == |b| && a != b
    requires forall j :: 0 <= j < |a| && !(at <= j < at + 32) ==> a[j] == b[j]
    ensures Absorb(c, a) != Absorb(c, b)
  {
    var lo := Min(at, |a|);
    var hi := Min(at + 32, |a|);
    var p, x, y, q := a[..lo], a[lo..hi], b[lo..hi], a[hi..];
    assert a == p + x + q;
    assert b == p + y + q;
    BurstChangesRegister(c, p, x, y, q);
  }

  /** The register after a payload and its own checksum is always the same, and after any other checksum
      it is different. */
  lemma Residue(bits: seq<bool>, four: Reg)
    ensures four == Xor(Absorb(ONES, bits), ONES) <==> Absorb(ONES, bits + four) == Shifts(ONES, 32)
  {
    var r := Absorb(ONES, bits);
    AbsorbConcat(ONES, bits, four);
    AbsorbWord(r, four);
    assert Low(four) == four;
    assert Xor(r, Xor(r, ONES)) == ONES;
    if Absorb(ONES, bits + four) == Shifts(ONES, 32) {
      ShiftsInjective(Xor(r, four), ONES, 32);
      XorInjective(four, Xor(r, ONES), r);
    }
  }

  lemma {:induction false} BitsConcat(u: seq<byte>, v: seq<byte>)
    ensures Bits(u + v) == Bits(u) + Bits(v)
    decreases |u|
  {
    if u == [] {
      assert u + v == v;
    } else {
      assert (u + v)[0] == u[0] && (u + v)[1..] == u[1..] + v;
      BitsConcat(u[1..], v);
    }
  }

  lemma BitsOfFour(s: seq<byte>)
    requires |s| == 4
    ensures Bits(s) == BytesReg(s)
  {
    assert s == [s[0]] + ([s[1]] + ([s[2]] + [s[3]]));
    BitsConcat([s[0]], [s[1]] + ([s[2]] + [s[3]]));
    BitsConcat([s[1]], [s[2]] + [s[3]]);
    BitsConcat([s[2]], [s[3]]);
    assert forall b: byte :: [b][1..] == [] && Bits([b]) == BitsOf(b);
  }

  /** Burst detection on the wire: a payload with its checksum, hit anywhere, in either or across both, by
      a burst of at most 32 bits, does not carry the checksum of the payload it now has. */
  lemma WireBurstDetected(u: seq<byte>, x: seq<byte>, v: seq<byte>, y: seq<byte>, at: nat)
    requires |u| == |v| && |x| == |y| == 4 && u + x != v + y && BytesReg(x) == Crc32(u)
    requires forall j :: 0 <= j < 8 * |u + x| && !(at <= j < at + 32) ==> Bits(u + x)[j] == Bits(v + y)[j]
    ensures BytesReg(y) != Crc32(v)
  {
    hide BytesReg, Absorb, Shifts, Bits;
    if Bits(u + x) == Bits(v + y) {
      BitsInjective(u + x, v + y);
    }
    WindowChangesRegister(ONES, Bits(u + x), Bits(v + y), at);
    BitsConcat(u, x);
    BitsConcat(v, y);
    BitsOfFour(x);
    BitsOfFour(y);
    Residue(Bits(u), BytesReg(x));
    Residue(Bits(v), BytesReg(y));
  }

  /** Burst detection: payloads of equal length that differ, and differ only inside a window of 32
      consecutive bits starting at bit `at`, have different checksums. */
  lemma BurstDetected(u: seq<byte>, v: seq<byte>, at: nat)
    requires |u| == |v| && u != v
    requires forall j :: 0 <= j < 8 * |u| && !(at <= j < at + 32) ==> Bits(u)[j] == Bits(v)[j]
    ensures Crc32(u) != Crc32(v)
  {
    if Bits(u) == Bits(v) {
      BitsInjective(u, v);
    }
    WindowChangesRegister(ONES, Bits(u), Bits(v), at);
    if Crc32(u) == Crc32(v) {
      XorInjective(Absorb(ONES, Bits(u)), Absorb(ONES, Bits(v)), ONES);
    }
  }

  lemma {:induction false} BitsAt(data: seq<byte>, j: nat)
    requires j < 8 * |data|
    ensures Bits(data)[j] == BitsOf(data[j / 8])[j % 8]
    decreases |data|
  {
    if j >= 8 {
      BitsAt(data[1..], j - 8);
    }
  }

  /** The same for bytes: corruption confined to four consecutive bytes is always noticed. */
  lemma ByteBurstDetected(u: seq<byte>, v: seq<byte>, at: nat)
    requires |u| == |v| && u != v
    requires forall i :: 0 <= i < |u| && !(at <= i < at + 4) ==> u[i] == v[i]
    ensures Crc32(u) != Crc32(v)
  {
    forall j | 0 <= j < 8 * |u| && !(8 * at <= j < 8 * at + 32) ensures Bits(u)[j] == Bits(v)[j] {
      BitsAt(u, j);
      BitsAt(v, j);
      assert u[j / 8] == v[j / 8];
    }
    BurstDetected(u, v, 8 * at);
  }
}
