/**
  The meaning of a Snappy block, independent of any encoder or decoder: section 2 of
  the Snappy format description, as summarised in the comment of snappy.go.
*/
module SnappyFormat {
  import opened Bytes

  datatype Tag = Literal(bytes: seq<Byte>) | Copy(offset: nat, length: nat)

  /** The first tag of `src` and the number of bytes it occupies. */
  function ReadTag(src: seq<Byte>): (r: Option<(Tag, nat)>)
    ensures r.Some? ==> 1 <= r.value.1 <= |src|
  {
    if |src| == 0 then None else
    var m := src[0] / 4;
    match src[0] % 4
    case 0 =>
      var extra := if m < 60 then 0 else m - 59;
      if |src| < 1 + extra then None else
      var length := 1 + if m < 60 then m else LE(src[1..1 + extra]);
      var end := 1 + extra + length;
      if |src| < end then None else Some((Literal(src[1 + extra..end]), end))
    case 1 =>
      if |src| < 2 then None else Some((Copy(m / 8 * 256 + src[1], 4 + m % 8), 2))
    case 2 =>
      if |src| < 3 then None else Some((Copy(LE(src[1..3]), 1 + m), 3))
    case _ =>
      if |src| < 5 then None else Some((Copy(LE(src[1..5]), 1 + m), 5))
  }

  /** `out` followed by `n` bytes, each equal to the byte `offset` places before it. */
  function Extend(out: seq<Byte>, offset: nat, n: nat): (r: seq<Byte>)
    requires 1 <= offset <= |out|
    ensures |r| == |out| + n && out <= r
  {
    if n == 0 then out else
    var o := Extend(out, offset, n - 1);
    o + [o[|o| - offset]]
  }

  /** What one tag does to the bytes produced so far. */
  function Apply(tag: Tag, out: seq<Byte>): (r: Option<seq<Byte>>)
    ensures r.Some? ==> out <= r.value
  {
    match tag
    case Literal(bytes) => Some(out + bytes)
    case Copy(offset, length) =>
      if 1 <= offset <= |out| then Some(Extend(out, offset, length)) else None
  }

  /** What a whole tag stream does to the bytes produced so far; None when malformed. */
  function Meaning(src: seq<Byte>, out: seq<Byte>): (r: Option<seq<Byte>>)
    ensures r.Some? ==> out <= r.value
    decreases |src|
  {
    if |src| == 0 then Some(out) else
    match ReadTag(src)
    case None => None
    case Some((tag, n)) =>
      match Apply(tag, out)
      case None => None
      case Some(out') => Meaning(src[n..], out')
  }

  lemma ReadTagAppend(a: seq<Byte>, b: seq<Byte>)
    requires ReadTag(a).Some?
    ensures ReadTag(a + b) == ReadTag(a)
  {
    var m := a[0] / 4;
    var n := ReadTag(a).value.1;
    var ab := a + b;
    assert forall i, j | 0 <= i <= j <= |a| :: ab[i..j] == a[i..j];
  }

  /** Concatenating tag streams composes their meanings. */
  lemma {:induction false} MeaningAppend(a: seq<Byte>, b: seq<Byte>, out: seq<Byte>)
    requires Meaning(a, out).Some?
    ensures Meaning(a + b, out) == Meaning(b, Meaning(a, out).value)
    decreases |a|
  {
    if |a| == 0 {
      assert a + b == b;
    } else {
      ReadTagAppend(a, b);
      var (tag, n) := ReadTag(a).value;
      assert (a + b)[n..] == a[n..] + b;
      MeaningAppend(a[n..], b, Apply(tag, out).value);
    }
  }

  /** A stream that is exactly one tag. */
  lemma MeaningSingle(a: seq<Byte>, tag: Tag, out: seq<Byte>)
    requires ReadTag(a) == Some((tag, |a|))
    ensures Meaning(a, out) == Apply(tag, out)
  {
  }

  /** A copy may be split into two copies with the same offset. */
  lemma {:induction false} ExtendSplit(out: seq<Byte>, offset: nat, a: nat, b: nat)
    requires 1 <= offset <= |out|
    ensures Extend(Extend(out, offset, a), offset, b) == Extend(out, offset, a + b)
  {
    if b > 0 {
      ExtendSplit(out, offset, a, b - 1);
    }
  }

  /** Each produced byte repeats the byte `offset` before it, also where the copy overlaps itself. */
  lemma {:induction false} ExtendAt(out: seq<Byte>, offset: nat, n: nat, k: nat)
    requires 1 <= offset <= |out| && k < n
    ensures var r := Extend(out, offset, n); r[|out| + k] == r[|out| + k - offset]
  {
    if k < n - 1 {
      ExtendAt(out, offset, n - 1, k);
    }
  }

  /** Copying from a place in `src` where the next bytes agree continues `src`. */
  lemma {:induction false} ExtendFollows(out: seq<Byte>, src: seq<Byte>, candidate: nat, base: nat, end: nat)
    requires candidate < base <= end <= |src|
    requires forall k | base <= k < end :: src[k] == src[k - (base - candidate)]
    ensures Extend(out + src[..base], base - candidate, end - base) == out + src[..end]
  {
    if base < end {
      ExtendFollows(out, src, candidate, base, end - 1);
      assert (out + src[..end - 1])[|out| + end - 1 - (base - candidate)] == src[end - 1];
      assert out + src[..end] == out + src[..end - 1] + [src[end - 1]];
    }
  }
}
