/** Bytes, little-endian numbers and the result types shared by all components. */
module Bytes {

  type Byte = x: int | 0 <= x < 256

  /** A string of Go, which is a string of bytes. */
  type Str = seq<Byte>

  datatype Option<+T> = None | Some(value: T)

  datatype Result<+T, +E> = Ok(value: T) | Err(error: E)

  /** The little-endian number written in `s`. */
  function LE(s: seq<Byte>): nat
  {
    if |s| == 0 then 0 else s[0] + 256 * LE(s[1..])
  }

  function U16(b0: int, b1: int): int
  {
    b0 + 0x100 * b1
  }

  function U24(b0: int, b1: int, b2: int): int
  {
    U16(b0, b1) + 0x1_0000 * b2
  }

  function U32(b0: int, b1: int, b2: int, b3: int): int
  {
    U24(b0, b1, b2) + 0x100_0000 * b3
  }

  lemma LE1(s: seq<Byte>)
    requires |s| == 1
    ensures LE(s) == s[0]
  {
  }

  lemma LE2(s: seq<Byte>)
    requires |s| == 2
    ensures LE(s) == U16(s[0], s[1])
  {
    LE1(s[1..]);
  }

  lemma LE3(s: seq<Byte>)
    requires |s| == 3
    ensures LE(s) == U24(s[0], s[1], s[2])
  {
    LE2(s[1..]);
  }

  lemma LE4(s: seq<Byte>)
    requires |s| == 4
    ensures LE(s) == U32(s[0], s[1], s[2], s[3]) < 0x1_0000_0000
  {
    LE3(s[1..]);
  }

  /** `a` differs from `before` at most in [lo..hi). */
  ghost predicate Framed(a: array<Byte>, before: seq<Byte>, lo: nat, hi: nat)
    reads a
  {
    |before| == a.Length && forall k | 0 <= k < a.Length && !(lo <= k < hi) :: a[k] == before[k]
  }

  lemma U32Digits(b0: Byte, b1: Byte, b2: Byte, b3: Byte)
    ensures var x := U32(b0, b1, b2, b3);
      x % 0x100 == b0 && x / 0x100_0000 == b3 && x % 0x100_0000 == U24(b0, b1, b2)
    ensures U24(b0, b1, b2) / 0x1_0000 == b2
  {
    assert U32(b0, b1, b2, b3) == b0 + 0x100 * (b1 + 0x100 * b2 + 0x1_0000 * b3);
  }

  lemma U32Injective(a0: Byte, a1: Byte, a2: Byte, a3: Byte, b0: Byte, b1: Byte, b2: Byte, b3: Byte)
    requires U32(a0, a1, a2, a3) == U32(b0, b1, b2, b3)
    ensures a0 == b0 && a1 == b1 && a2 == b2 && a3 == b3
  {
    U32Digits(a0, a1, a2, a3);
    U32Digits(b0, b1, b2, b3);
  }
}
