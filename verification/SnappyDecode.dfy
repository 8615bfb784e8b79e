/** The block decoder: decode_other.go and the block half of decode.go. */
module SnappyDecode {
  import opened Bytes
  import opened SnappyFormat
  import Uvarint

  datatype DecodeError = ErrCorrupt | ErrTooLarge | ErrUnsupportedLiteralLength

  const DECODE_OK := 0
  const DECODE_ERR_CODE_CORRUPT := 1
  const DECODE_ERR_CODE_UNSUPPORTED_LITERAL_LENGTH := 2

  /** The largest Go int on a platform with words of `wordSize` bits. */
  function MaxInt(wordSize: int): int
    requires wordSize == 32 || wordSize == 64
  {
    if wordSize == 32 then 0x7fff_ffff else 0x7fff_ffff_ffff_ffff
  }

  /** The Go int that `x` wraps to. */
  function WrapInt(x: int, wordSize: int): (r: int)
    requires wordSize == 32 || wordSize == 64
    ensures -MaxInt(wordSize) - 1 <= x <= MaxInt(wordSize) ==> r == x
    ensures MaxInt(wordSize) < x < 0x1_0000_0000 ==> wordSize == 32 && r == x - 0x1_0000_0000
  {
    var m := MaxInt(wordSize) + 1;
    (x + m) % (2 * m) - m
  }

  /** What `decode` must find: a well-formed tag stream producing exactly `n` bytes. */
  ghost predicate Produces(src: seq<Byte>, n: nat)
  {
    Meaning(src, []).Some? && |Meaning(src, []).value| == n
  }

  /** The state of the decoder after `s` bytes of `src` have produced `out`. */
  ghost predicate Progress(src: seq<Byte>, s: nat, out: seq<Byte>)
  {
    s <= |src| && Meaning(src, []) == Meaning(src[s..], out)
  }

  lemma ProgressTag(src: seq<Byte>, s: nat, out: seq<Byte>, tag: Tag, n: nat)
    requires Progress(src, s, out) && ReadTag(src[s..]) == Some((tag, n)) && Apply(tag, out).Some?
    ensures Progress(src, s + n, Apply(tag, out).value)
    ensures tag.Literal? ==> Progress(src, s + n, out + tag.bytes)
  {
    assert src[s..][n..] == src[s + n..];
  }

  lemma NoTag(src: seq<Byte>, s: nat, out: seq<Byte>, room: nat)
    requires Progress(src, s, out) && s < |src| && ReadTag(src[s..]).None?
    ensures !Produces(src, room)
  {
  }

  lemma Finished(src: seq<Byte>, out: seq<Byte>)
    requires Progress(src, |src|, out)
    ensures Meaning(src, []) == Some(out)
  {
    assert src[|src|..] == [];
  }

  /** An attempt that does not fit the destination cannot have been the right stream. */
  lemma TooLong(src: seq<Byte>, s: nat, out: seq<Byte>, tag: Tag, n: nat, room: nat)
    requires Progress(src, s, out) && ReadTag(src[s..]) == Some((tag, n))
    requires Apply(tag, out).Some? ==> |Apply(tag, out).value| > room
    ensures !Produces(src, room)
  {
  }

  /** The literal tag at `src[s]`, in terms of the position after its length field. */
  lemma LiteralTag(src: seq<Byte>, s: nat)
    requires s < |src| && src[s] % 4 == 0
    ensures var m: int := src[s] / 4;
      var next := s + 1 + if m < 60 then 0 else m - 59;
      if next > |src| then ReadTag(src[s..]).None?
      else
        var x := if m < 60 then m else LE(src[s + 1..next]);
        ReadTag(src[s..]) ==
          if x < |src| - next then Some((Literal(src[next..next + x + 1]), next - s + x + 1)) else None
  {
    var rest := src[s..];
    var m: int := src[s] / 4;
    var next := s + 1 + if m < 60 then 0 else m - 59;
    if next <= |src| {
      assert rest[1..next - s] == src[s + 1..next];
      var x := if m < 60 then m else LE(src[s + 1..next]);
      if x < |src| - next {
        assert rest[next - s..next - s + x + 1] == src[next..next + x + 1];
      }
    }
  }

  /** Parses a literal tag's length at `src[s]`: the position after it and the length less one. */
  method LiteralHeader(src: seq<Byte>, s: nat) returns (ok: bool, next: nat, x: nat)
    requires s < |src| && src[s] % 4 == 0
    ensures !ok ==> ReadTag(src[s..]).None?
    ensures ok ==> s < next <= |src| && x < 0x1_0000_0000
    ensures ok && x < |src| - next ==>
              ReadTag(src[s..]) == Some((Literal(src[next..next + x + 1]), next - s + x + 1))
    ensures ok && x >= |src| - next ==> ReadTag(src[s..]).None?
  {
    LiteralTag(src, s);
    var m: int := src[s] / 4;
    if m < 60 {
      return true, s + 1, m;
    } else if m == 60 {
      next := s + 2;
      if next > |src| { return false, next, 0; }
      LE1(src[s + 1..next]);
      return true, next, src[next - 1];
    } else if m == 61 {
      next := s + 3;
      if next > |src| { return false, next, 0; }
      LE2(src[s + 1..next]);
      return true, next, U16(src[next - 2], src[next - 1]);
    } else if m == 62 {
      next := s + 4;
      if next > |src| { return false, next, 0; }
      LE3(src[s + 1..next]);
      return true, next, U24(src[next - 3], src[next - 2], src[next - 1]);
    } else {
      next := s + 5;
      if next > |src| { return false, next, 0; }
      LE4(src[s + 1..next]);
      return true, next, U32(src[next - 4], src[next - 3], src[next - 2], src[next - 1]);
    }
  }

  /** Parses a copy tag at `src[s]`: the position after it, its length and its offset. */
  method CopyHeader(src: seq<Byte>, s: nat) returns (ok: bool, next: nat, length: nat, offset: nat)
    requires s < |src| && src[s] % 4 != 0
    ensures !ok ==> ReadTag(src[s..]).None?
    ensures ok ==> s < next <= |src| && 1 <= length <= 64 && offset < 0x1_0000_0000
    ensures ok ==> ReadTag(src[s..]) == Some((Copy(offset, length), next - s))
  {
    ghost var rest := src[s..];
    var m: int := src[s] / 4;
    next, length, offset := s, 0, 0;
    if src[s] % 4 == 1 {
      next := s + 2;
      if next > |src| { return false, next, length, offset; }
      length := 4 + m % 8;
      offset := m / 8 * 256 + src[next - 1];
    } else if src[s] % 4 == 2 {
      next := s + 3;
      if next > |src| { return false, next, length, offset; }
      length := 1 + m;
      offset := U16(src[next - 2], src[next - 1]);
      LE2(rest[1..3]);
    } else {
      next := s + 5;
      if next > |src| { return false, next, length, offset; }
      length := 1 + m;
      offset := U32(src[next - 4], src[next - 3], src[next - 2], src[next - 1]);
      LE4(rest[1..5]);
    }
    return true, next, length, offset;
  }

  /** The byte-by-byte copy, which runs forwards also when source and destination overlap. */
  method ForwardCopy(dst: array<Byte>, d: nat, offset: nat, length: nat)
    requires 1 <= offset <= d && d + length <= dst.Length
    modifies dst
    ensures dst[..d + length] == Extend(old(dst[..d]), offset, length)
    ensures dst[d + length..] == old(dst[d + length..])
  {
    var i, end := d, d + length;
    while i != end
      invariant d <= i <= end
      invariant dst[..i] == Extend(old(dst[..d]), offset, i - d)
      invariant dst[end..] == old(dst[end..])
      decreases end - i
    {
      dst[i] := dst[i - offset];
      i := i + 1;
    }
  }

  /** Decodes the literal at `src[s]`. */
  method DecodeLiteral(dst: array<Byte>, room: nat, src: seq<Byte>, d: nat, s: nat, wordSize: int)
    returns (code: int, d': nat, s': nat)
    requires wordSize == 32 || wordSize == 64
    requires room <= dst.Length && room <= MaxInt(wordSize) && |src| <= MaxInt(wordSize)
    requires d <= room && s < |src| && src[s] % 4 == 0 && Progress(src, s, dst[..d])
    modifies dst
    ensures dst[room..] == old(dst[room..])
    ensures code == DECODE_OK ==> s < s' <= |src| && d' <= room && Progress(src, s', dst[..d'])
    ensures code != DECODE_OK ==> !Produces(src, room)
    ensures code in {DECODE_OK, DECODE_ERR_CODE_CORRUPT, DECODE_ERR_CODE_UNSUPPORTED_LITERAL_LENGTH}
    ensures code == DECODE_ERR_CODE_UNSUPPORTED_LITERAL_LENGTH ==> wordSize == 32
  {
    hide ReadTag, Meaning, Extend, WrapInt;
    ghost var out := dst[..d];
    var ok, next, x := LiteralHeader(src, s);
    if !ok {
      NoTag(src, s, out, room);
      return DECODE_ERR_CODE_CORRUPT, d, s;
    }
    var length := WrapInt(WrapInt(x, wordSize) + 1, wordSize);
    if x >= |src| - next {
      NoTag(src, s, out, room);
    } else if x >= room - d {
      TooLong(src, s, out, Literal(src[next..next + x + 1]), next - s + x + 1, room);
    }
    if length <= 0 {
      return DECODE_ERR_CODE_UNSUPPORTED_LITERAL_LENGTH, d, s;
    }
    if length > room - d || length > |src| - next {
      return DECODE_ERR_CODE_CORRUPT, d, s;
    }
    forall k | 0 <= k < length {
      dst[d + k] := src[next + k];
    }
    assert dst[..d + length] == out + src[next..next + length];
    ProgressTag(src, s, out, Literal(src[next..next + length]), next - s + length);
    return DECODE_OK, d + length, next + length;
  }

  /** Decodes the copy at `src[s]`. */
  method DecodeCopy(dst: array<Byte>, room: nat, src: seq<Byte>, d: nat, s: nat, wordSize: int)
    returns (code: int, d': nat, s': nat)
    requires wordSize == 32 || wordSize == 64
    requires room <= dst.Length && room <= MaxInt(wordSize) && |src| <= MaxInt(wordSize)
    requires d <= room && s < |src| && src[s] % 4 != 0 && Progress(src, s, dst[..d])
    modifies dst
    ensures dst[room..] == old(dst[room..])
    ensures code == DECODE_OK ==> s < s' <= |src| && d' <= room && Progress(src, s', dst[..d'])
    ensures code != DECODE_OK ==> !Produces(src, room)
    ensures code in {DECODE_OK, DECODE_ERR_CODE_CORRUPT}
  {
    hide ReadTag, Meaning, Extend, WrapInt;
    ghost var out := dst[..d];
    var ok, next, length, offset0 := CopyHeader(src, s);
    if !ok {
      NoTag(src, s, out, room);
      return DECODE_ERR_CODE_CORRUPT, d, s;
    }
    var offset := WrapInt(offset0, wordSize);
    if offset <= 0 || d < offset || length > room - d {
      TooLong(src, s, out, Copy(offset0, length), next - s, room);
      return DECODE_ERR_CODE_CORRUPT, d, s;
    }
    ForwardCopy(dst, d, offset, length);
    ProgressTag(src, s, out, Copy(offset, length), next - s);
    return DECODE_OK, d + length, next;
  }

  /**
    decode: writes the decoding of `src` to `dst[..room]`, whatever that held before. It succeeds
    exactly on the well-formed streams that produce `room` bytes.
  */
  method DecodeTags(dst: array<Byte>, room: nat, src: seq<Byte>, wordSize: int) returns (code: int)
    requires wordSize == 32 || wordSize == 64
    requires room <= dst.Length && room <= MaxInt(wordSize) && |src| <= MaxInt(wordSize)
    modifies dst
    ensures dst[room..] == old(dst[room..])
    ensures code == DECODE_OK <==> Produces(src, room)
    ensures code == DECODE_OK ==> Some(dst[..room]) == Meaning(src, [])
    ensures code in {DECODE_OK, DECODE_ERR_CODE_CORRUPT, DECODE_ERR_CODE_UNSUPPORTED_LITERAL_LENGTH}
    ensures code == DECODE_ERR_CODE_UNSUPPORTED_LITERAL_LENGTH ==> wordSize == 32
  {
    var d: nat, s: nat := 0, 0;
    assert src[s..] == src && dst[..d] == [];
    while s < |src|
      invariant s <= |src| && d <= room
      invariant Progress(src, s, dst[..d]) && dst[room..] == old(dst[room..])
    {
      if src[s] % 4 == 0 {
        code, d, s := DecodeLiteral(dst, room, src, d, s, wordSize);
      } else {
        code, d, s := DecodeCopy(dst, room, src, d, s, wordSize);
      }
      if code != DECODE_OK {
        return;
      }
    }
    Finished(src, dst[..d]);
    if d != room {
      return DECODE_ERR_CODE_CORRUPT;
    }
    return DECODE_OK;
  }

  /** decodedLen: the length in a block's preamble and the length of the preamble itself. */
  function DecodedLen(src: seq<Byte>, wordSize: int): (r: Result<(nat, nat), DecodeError>)
    requires wordSize == 32 || wordSize == 64
    ensures r.Ok? ==> r.value.0 <= 0xffff_ffff && r.value.0 <= MaxInt(wordSize) && r.value.1 <= |src|
  {
    match Uvarint.Get(src, 0)
    case None => Err(ErrCorrupt)
    case Some((v, n)) =>
      if v > 0xffff_ffff then Err(ErrCorrupt)
      else if wordSize == 32 && v > 0x7fff_ffff then Err(ErrTooLarge)
      else Ok((v, n))
  }

  /** The content of a block: the preamble announces the number of bytes its tags produce. */
  ghost function BlockMeaning(src: seq<Byte>, wordSize: int): Option<seq<Byte>>
    requires wordSize == 32 || wordSize == 64
  {
    match DecodedLen(src, wordSize)
    case Err(_) => None
    case Ok((length, n)) =>
      if Produces(src[n..], length) then Meaning(src[n..], []) else None
  }

  /**
    Decode: the decoded block is `buf[..n]`, where `buf` is `dst` when that is long enough
    and a new array otherwise.
  */
  method Decode(dst: array<Byte>, src: seq<Byte>, wordSize: int)
    returns (err: Option<DecodeError>, buf: array<Byte>, n: nat)
    requires wordSize == 32 || wordSize == 64
    requires |src| <= MaxInt(wordSize)
    modifies dst
    ensures err.None? <==> BlockMeaning(src, wordSize).Some?
    ensures err.None? ==> n <= buf.Length && Some(buf[..n]) == BlockMeaning(src, wordSize)
    ensures err.None? ==> if n <= dst.Length then buf == dst else fresh(buf)
    ensures err == Some(ErrTooLarge) || err == Some(ErrUnsupportedLiteralLength) ==> wordSize == 32
  {
    buf := dst;
    match DecodedLen(src, wordSize) {
      case Err(e) =>
        return Some(e), dst, 0;
      case Ok((length, s)) =>
        n := length;
        if length > dst.Length {
          buf := new Byte[length];
        }
        var code := DecodeTags(buf, n, src[s..], wordSize);
        if code == DECODE_OK {
          return None, buf, n;
        }
        return Some(if code == DECODE_ERR_CODE_UNSUPPORTED_LITERAL_LENGTH
          then ErrUnsupportedLiteralLength else ErrCorrupt), buf, n;
    }
  }
}
