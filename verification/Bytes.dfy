/** Bytes, little-endian 16-bit fields and sequence helpers shared by every module. */
module Bytes {
  newtype byte = x: int | 0 <= x < 256

  datatype Option<+T> = None | Some(value: T)

  /** `u16::to_le_bytes`, for a value that fits in 16 bits. */
  function Pack16(n: nat): (s: seq<byte>)
    requires n < 0x1_0000
    ensures |s| == 2
  {
    [(n % 256) as byte, (n / 256) as byte]
  }

  /** `u16::from_le_bytes`. */
  function Unpack16(lo: byte, hi: byte): (n: nat)
    ensures n < 0x1_0000
  {
    lo as int + 256 * (hi as int)
  }

  /** Decoding a packed 16-bit field gives back the number. */
  lemma Unpack16Inverts(n: nat)
    requires n < 0x1_0000
    ensures Unpack16(Pack16(n)[0], Pack16(n)[1]) == n
  {
  }

  /** Packing a decoded 16-bit field gives back its two bytes. */
  lemma Pack16Inverts(lo: byte, hi: byte)
    ensures Pack16(Unpack16(lo, hi)) == [lo, hi]
  {
  }

  /** Concatenation of a list of sequences. */
  function Flat<T>(parts: seq<seq<T>>): seq<T> {
    if parts == [] then [] else parts[0] + Flat(parts[1..])
  }

  lemma {:induction false} FlatAppend<T>(parts: seq<seq<T>>, last: seq<T>)
    ensures Flat(parts + [last]) == Flat(parts) + last
  {
    if parts == [] {
      assert [last][1..] == [];
    } else {
      FlatAppend(parts[1..], last);
      Assoc(parts[0], Flat(parts[1..]), last);
      assert (parts + [last])[1..] == parts[1..] + [last];
    }
  }

  lemma Assoc<T>(a: seq<T>, b: seq<T>, c: seq<T>)
    ensures a + (b + c) == a + b + c
  {
  }

  lemma SliceOfRest<T>(s: seq<T>, n: nat, at: nat, k: nat)
    requires n <= at && at + k <= |s|
    ensures s[n..][at - n..at - n + k] == s[at..at + k]
  {
  }

  function Pow2(k: nat): nat {
    if k == 0 then 1 else 2 * Pow2(k - 1)
  }

  function Min(a: int, b: int): int {
    if a <= b then a else b
  }
}
