/** The variable-length integers of Go's encoding/binary, which open every block. */
module Uvarint {
  import opened Bytes

  /** The bytes binary.PutUvarint writes for `x`. */
  function Put(x: nat): (r: seq<Byte>)
    ensures |r| >= 1
  {
    if x < 0x80 then [x] else [x % 0x80 + 0x80] + Put(x / 0x80)
  }

  /**
    What binary.Uvarint reads from `buf`, of which `i` bytes were already consumed: the
    value and the number of bytes, or None for an incomplete or overlong number.
  */
  function Get(buf: seq<Byte>, i: nat): (r: Option<(nat, nat)>)
    ensures r.Some? ==> 1 <= r.value.1 <= |buf|
    decreases |buf|
  {
    if |buf| == 0 then None
    else if buf[0] < 0x80 then
      if i > 9 || (i == 9 && buf[0] > 1) then None else Some((buf[0], 1))
    else
      match Get(buf[1..], i + 1)
      case None => None
      case Some((v, n)) => Some((buf[0] - 0x80 + 0x80 * v, n + 1))
  }

  /** A length that fits the block format takes at most five bytes. */
  lemma PutLength(x: nat)
    requires x <= 0xffff_ffff
    ensures |Put(x)| <= 5
  {
    var x1 := x / 0x80;
    var x2 := x1 / 0x80;
    var x3 := x2 / 0x80;
    var x4 := x3 / 0x80;
    assert |Put(x4)| <= 1;
    assert |Put(x3)| <= 2;
    assert |Put(x2)| <= 3;
    assert |Put(x1)| <= 4;
  }

  /** Reading back what was written, followed by anything, gives the number and its length. */
  lemma {:induction false} GetPut(x: nat, i: nat, rest: seq<Byte>)
    requires |Put(x)| + i <= 9
    ensures Get(Put(x) + rest, i) == Some((x, |Put(x)|))
    decreases x
  {
    if x >= 0x80 {
      GetPut(x / 0x80, i + 1, rest);
      assert (Put(x) + rest)[1..] == Put(x / 0x80) + rest;
    }
  }
}
