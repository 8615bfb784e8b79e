/** The block encoder: encode_other.go and the block half of encode.go. */
module SnappyEncode {
  import opened Bytes
  import opened SnappyFormat
  import SnappyDecode
  import Uvarint

  const INPUT_MARGIN := 15
  const MIN_NON_LITERAL_BLOCK_SIZE := 17
  const MAX_BLOCK_SIZE := 65536
  const MAX_TABLE_SIZE := 16384

  // ---------- Tag emission ----------

  /** Bytes a literal of `n` bytes takes in the stream. */
  function LiteralSize(n: nat): nat
  {
    n + if n <= 60 then 1 else if n <= 256 then 2 else 3
  }

  /** emitLiteral: what is written is one literal tag holding `lit`. */
  method EmitLiteral(dst: array<Byte>, d: nat, lit: seq<Byte>) returns (n: nat)
    requires 1 <= |lit| <= 65536
    requires d + LiteralSize(|lit|) <= dst.Length
    modifies dst
    ensures n == LiteralSize(|lit|)
    ensures ReadTag(dst[d..d + n]) == Some((Literal(lit), n))
    ensures Framed(dst, old(dst[..]), d, d + n)
  {
    hide ReadTag;
    var i, m := 0, |lit| - 1;
    if m < 60 {
      dst[d] := m * 4;
      i := 1;
    } else if m < 256 {
      dst[d] := 60 * 4;
      dst[d + 1] := m;
      i := 2;
    } else {
      dst[d] := 61 * 4;
      dst[d + 1] := m % 256;
      dst[d + 2] := m / 256 % 256;
      i := 3;
    }
    n := i + |lit|;
    forall k | d + i <= k < d + n {
      dst[k] := lit[k - (d + i)];
    }
    assert dst[d + i..d + n] == lit;
    assert dst[d..d + n][i..] == dst[d + i..d + n];
    LiteralForm(dst[d..d + n], i, lit);
  }

  lemma LiteralForm(w: seq<Byte>, i: nat, lit: seq<Byte>)
    requires 1 <= |lit| && |w| == i + |lit| && w[i..] == lit
    requires
      var m := |lit| - 1;
      || (i == 1 && m < 60 && w[0] == m * 4)
      || (i == 2 && w[0] == 240 && w[1] == m)
      || (i == 3 && w[0] == 244 && U16(w[1], w[2]) == m)
    ensures ReadTag(w) == Some((Literal(lit), |w|))
  {
    assert w[i..|w|] == lit;
    if i == 2 {
      LE1(w[1..2]);
    } else if i == 3 {
      LE2(w[1..3]);
    }
  }

  /** Bytes a copy of `length` bytes takes in the stream: fewer than it produces. */
  function CopySize(offset: nat, length: nat): (r: nat)
    requires 4 <= length
    ensures 2 <= r < length
  {
    if length >= 68 then 3 + CopySize(offset, length - 64)
    else if length > 64 then 3 + if offset >= 2048 then 3 else 2
    else if length >= 12 || offset >= 2048 then 3 else 2
  }

  /** One three-byte copy tag. */
  method EmitCopy2(dst: array<Byte>, d: nat, offset: nat, length: nat)
    requires 1 <= offset <= 65535 && 1 <= length <= 64 && d + 3 <= dst.Length
    modifies dst
    ensures ReadTag(dst[d..d + 3]) == Some((Copy(offset, length), 3))
    ensures Framed(dst, old(dst[..]), d, d + 3)
  {
    dst[d] := (length - 1) * 4 + 2;
    dst[d + 1] := offset % 256;
    dst[d + 2] := offset / 256 % 256;
    LE2(dst[d..d + 3][1..3]);
  }

  /** One two-byte copy tag: disjoint bit fields, so that "or" is addition. */
  method EmitCopy1(dst: array<Byte>, d: nat, offset: nat, length: nat)
    requires 1 <= offset < 2048 && 4 <= length < 12 && d + 2 <= dst.Length
    modifies dst
    ensures ReadTag(dst[d..d + 2]) == Some((Copy(offset, length), 2))
    ensures Framed(dst, old(dst[..]), d, d + 2)
  {
    dst[d] := offset / 256 * 32 + (length - 4) * 4 + 1;
    dst[d + 1] := offset % 256;
  }

  lemma NothingYet(w: seq<Byte>, out: seq<Byte>, offset: nat)
    requires |w| == 0 && 1 <= offset <= |out|
    ensures Meaning(w, out) == Some(Extend(out, offset, 0))
  {
  }

  /** The stream `w` grows by a copy tag `t`; both continue the same copy. */
  lemma CopyContinues(w: seq<Byte>, t: seq<Byte>, out: seq<Byte>, offset: nat, done: nat, length: nat)
    requires 1 <= offset <= |out|
    requires Meaning(w, out) == Some(Extend(out, offset, done))
    requires ReadTag(t) == Some((Copy(offset, length), |t|))
    ensures Meaning(w + t, out) == Some(Extend(out, offset, done + length))
  {
    hide ReadTag, Meaning, Extend;
    MeaningAppend(w, t, out);
    MeaningSingle(t, Copy(offset, length), Extend(out, offset, done));
    ExtendSplit(out, offset, done, length);
  }

  /**
    emitCopy: what is written copies `length` bytes from `offset` back, as several tags when
    `length` exceeds 64, and is shorter than what it produces.
  */
  method EmitCopy(dst: array<Byte>, d: nat, offset: nat, length: nat, ghost out: seq<Byte>) returns (n: nat)
    requires 1 <= offset <= 65535 && 4 <= length <= 65535
    requires d + CopySize(offset, length) <= dst.Length
    requires offset <= |out|
    modifies dst
    ensures n == CopySize(offset, length)
    ensures Meaning(dst[d..d + n], out) == Some(Extend(out, offset, length))
    ensures Framed(dst, old(dst[..]), d, d + n)
  {
    hide ReadTag, Meaning, Extend;
    var i: nat, left := 0, length;
    NothingYet(dst[d..d + i], out, offset);
    while left >= 68
      invariant 4 <= left <= length
      invariant i + CopySize(offset, left) == CopySize(offset, length)
      invariant Meaning(dst[d..d + i], out) == Some(Extend(out, offset, length - left))
      invariant Framed(dst, old(dst[..]), d, d + i)
    {
      i, left := EmitPart(dst, d, i, offset, length, left, 64, out);
    }
    if left > 64 {
      i, left := EmitPart(dst, d, i, offset, length, left, 60, out);
    }
    if left >= 12 || offset >= 2048 {
      i, left := EmitPart(dst, d, i, offset, length, left, left, out);
      return i;
    }
    i, left := EmitShortPart(dst, d, i, offset, length, left, out);
    return i;
  }

  /** The last step of `EmitCopy` where the short form serves: a two-byte tag for all `left` bytes. */
  method EmitShortPart(dst: array<Byte>, d: nat, i: nat, offset: nat, ghost length: nat, left: nat,
                       ghost out: seq<Byte>)
    returns (i': nat, left': nat)
    requires 1 <= offset < 2048 && 4 <= left < 12 && left <= length
    requires d + i + 2 <= dst.Length && offset <= |out|
    requires Meaning(dst[d..d + i], out) == Some(Extend(out, offset, length - left))
    modifies dst
    ensures i' == i + 2 && left' == 0
    ensures Meaning(dst[d..d + i'], out) == Some(Extend(out, offset, length))
    ensures Framed(dst, old(dst[..]), d + i, d + i')
  {
    hide ReadTag, Meaning, Extend;
    ghost var w := dst[d..d + i];
    EmitCopy1(dst, d + i, offset, left);
    assert dst[d..d + i + 2] == w + dst[d + i..d + i + 2];
    CopyContinues(w, dst[d + i..d + i + 2], out, offset, length - left, left);
    return i + 2, 0;
  }

  /** One step of `EmitCopy`: a three-byte tag for `part` of the `left` bytes. */
  method EmitPart(dst: array<Byte>, d: nat, i: nat, offset: nat, ghost length: nat, left: nat, part: nat,
                  ghost out: seq<Byte>)
    returns (i': nat, left': nat)
    requires 1 <= offset <= 65535 && 1 <= part <= 64 && part <= left <= length
    requires d + i + 3 <= dst.Length && offset <= |out|
    requires Meaning(dst[d..d + i], out) == Some(Extend(out, offset, length - left))
    modifies dst
    ensures i' == i + 3 && left' == left - part
    ensures Meaning(dst[d..d + i'], out) == Some(Extend(out, offset, length - left'))
    ensures Framed(dst, old(dst[..]), d + i, d + i')
  {
    hide ReadTag, Meaning, Extend;
    ghost var w := dst[d..d + i];
    EmitCopy2(dst, d + i, offset, part);
    assert dst[d..d + i + 3] == w + dst[d + i..d + i + 3];
    CopyContinues(w, dst[d + i..d + i + 3], out, offset, length - left, part);
    return i + 3, left - part;
  }

  // ---------- The match finder ----------

  function Load32(src: seq<Byte>, i: nat): (r: nat)
    requires i + 4 <= |src|
    ensures r < 0x1_0000_0000
  {
    U32(src[i], src[i + 1], src[i + 2], src[i + 3])
  }

  function Load64(src: seq<Byte>, i: nat): nat
    requires i + 8 <= |src|
  {
    Load32(src, i) + 0x1_0000_0000 * Load32(src, i + 4)
  }

  function ShiftRight(x: nat, n: nat): nat
  {
    if n == 0 then x else ShiftRight(x / 2, n - 1)
  }

  /** hash: the product wraps to 32 bits. */
  function Hash(u: nat, shift: nat): nat
  {
    ShiftRight(u * 0x1e35a7bd % 0x1_0000_0000, shift)
  }

  /** Dropping the low bits of a 64-bit number and keeping 32 of the rest. */
  lemma Window(x: nat, low: nat, word: nat, high: nat)
    requires word < 0x1_0000_0000
    ensures x == word + 0x1_0000_0000 * high ==> x % 0x1_0000_0000 == word
    ensures low < 0x100 && x == low + 0x100 * (word + 0x1_0000_0000 * high) ==>
              x / 0x100 == word + 0x1_0000_0000 * high && x / 0x100 % 0x1_0000_0000 == word
    ensures low < 0x1_0000 && x == low + 0x1_0000 * (word + 0x1_0000_0000 * high) ==>
              x / 0x1_0000 == word + 0x1_0000_0000 * high && x / 0x1_0000 % 0x1_0000_0000 == word
  {
  }

  /** The word one or two bytes further in a 64-bit load is the 32-bit load from there. */
  lemma ShiftedWord(src: seq<Byte>, i: nat)
    requires i + 8 <= |src|
    ensures Load64(src, i) % 0x1_0000_0000 == Load32(src, i)
    ensures Load64(src, i) / 0x100 % 0x1_0000_0000 == Load32(src, i + 1)
    ensures Load64(src, i) / 0x1_0000 % 0x1_0000_0000 == Load32(src, i + 2)
  {
    var x := Load64(src, i);
    Window(x, 0, Load32(src, i), Load32(src, i + 4));
    Window(x, src[i], Load32(src, i + 1), U24(src[i + 5], src[i + 6], src[i + 7]));
    Window(x, U16(src[i], src[i + 1]), Load32(src, i + 2), U16(src[i + 6], src[i + 7]));
  }

  /** The hash table of an `EncodeBlock` call: positions that come before `s`. */
  ghost predicate TableBelow(table: array<nat>, s: nat)
    reads table
  {
    table.Length == MAX_TABLE_SIZE && forall k | 0 <= k < table.Length :: table[k] < s
  }

  /** `src[i..]` and the earlier `src[j..]` agree on `n` bytes. */
  ghost predicate Agree(src: seq<Byte>, j: nat, i: nat, n: nat)
  {
    j < i && i + n <= |src| && forall k | i <= k < i + n :: src[k] == src[k - (i - j)]
  }

  /** extendMatch: the largest `k` such that src[i:i+k-j] and src[j:k] have the same contents. */
  method ExtendMatch(src: seq<Byte>, i: nat, j: nat) returns (k: nat)
    requires i < j <= |src|
    ensures j <= k <= |src| && Agree(src, i, j, k - j)
    ensures k < |src| ==> src[k] != src[k - (j - i)]
  {
    k := j;
    var m := i;
    while k < |src| && src[m] == src[k]
      invariant j <= k <= |src| && m == k - (j - i)
      invariant Agree(src, i, j, k - j)
    {
      m, k := m + 1, k + 1;
    }
  }

  /**
    The search loop of encodeBlock: it looks up position after position, moving ahead ever
    faster, until four bytes agree with the bytes at an earlier position.
  */
  method FindMatch(src: seq<Byte>, table: array<nat>, shift: nat, s0: nat, nextHash0: nat)
    returns (found: bool, s: nat, candidate: nat)
    requires MIN_NON_LITERAL_BLOCK_SIZE <= |src| <= MAX_BLOCK_SIZE
    requires 1 <= s0 <= |src| - INPUT_MARGIN
    requires nextHash0 == Hash(Load32(src, s0), shift)
    requires TableBelow(table, s0)
    modifies table
    ensures found ==> s0 <= s < |src| - INPUT_MARGIN
    ensures found ==> Agree(src, candidate, s, 4)
    ensures found ==> TableBelow(table, s + 1)
  {
    hide Hash, Load32, Agree;
    var sLimit := |src| - INPUT_MARGIN;
    var skip, nextS, nextHash := 32, s0, nextHash0;
    while true
      invariant s0 <= nextS <= sLimit && skip >= 32
      invariant TableBelow(table, nextS)
      invariant nextHash == Hash(Load32(src, nextS), shift)
      decreases sLimit - nextS
    {
      s := nextS;
      var bytesBetweenHashLookups := skip / 32;
      nextS := s + bytesBetweenHashLookups;
      skip := skip + bytesBetweenHashLookups;
      if nextS > sLimit {
        return false, s, 0;
      }
      var slot := nextHash % MAX_TABLE_SIZE;
      candidate := table[slot];
      table[slot] := s % 65536;
      nextHash := Hash(Load32(src, nextS), shift);
      if Load32(src, s) == Load32(src, candidate) {
        AgreeWord(src, candidate, s);
        return true, s, candidate;
      }
    }
  }

  /** Equal words hold equal bytes. */
  lemma AgreeWord(src: seq<Byte>, j: nat, i: nat)
    requires j < i && i + 4 <= |src| && Load32(src, i) == Load32(src, j)
    ensures Agree(src, j, i, 4)
  {
    U32Injective(src[i], src[i + 1], src[i + 2], src[i + 3], src[j], src[j + 1], src[j + 2], src[j + 3]);
    forall k | i <= k < i + 4
      ensures src[k] == src[k - (i - j)]
    {
      assert k == i || k == i + 1 || k == i + 2 || k == i + 3;
    }
  }

  // ---------- Blocks ----------

  /** The room a block of `n` bytes needs at most. */
  function BlockBound(n: nat): nat
  {
    n + n / 64 + 3
  }

  /**
    The state of the encoder: the `d - d0` bytes written so far decode to the first
    `nextEmit` bytes of `src`, and copies have paid for the literal headers before them.
  */
  ghost predicate Encoded(w: seq<Byte>, src: seq<Byte>, nextEmit: nat, out: seq<Byte>)
  {
    && nextEmit <= |src|
    && Meaning(w, out) == Some(out + src[..nextEmit])
    && 64 * |w| <= 65 * nextEmit
  }

  /** Emits `src[nextEmit..s]` as a literal. */
  method EmitPending(dst: array<Byte>, d0: nat, d: nat, src: seq<Byte>, nextEmit: nat, s: nat, ghost out: seq<Byte>)
    returns (d': nat)
    requires nextEmit < s <= |src| <= MAX_BLOCK_SIZE
    requires d0 <= d && d + LiteralSize(s - nextEmit) <= dst.Length
    requires Meaning(dst[d0..d], out) == Some(out + src[..nextEmit])
    modifies dst
    ensures d' == d + LiteralSize(s - nextEmit)
    ensures Meaning(dst[d0..d'], out) == Some(out + src[..s])
    ensures Framed(dst, old(dst[..]), d, d')
  {
    hide ReadTag, Meaning;
    ghost var w := dst[d0..d];
    var n := EmitLiteral(dst, d, src[nextEmit..s]);
    d' := d + n;
    ghost var t := dst[d..d'];
    assert dst[d0..d'] == w + t;
    MeaningAppend(w, t, out);
    MeaningSingle(t, Literal(src[nextEmit..s]), out + src[..nextEmit]);
    assert out + src[..nextEmit] + src[nextEmit..s] == out + src[..s];
  }

  /** Emits the copy of `src[base..s]` from `candidate`. */
  method EmitMatch(dst: array<Byte>, d0: nat, d: nat, src: seq<Byte>, candidate: nat, base: nat, s: nat,
                   ghost out: seq<Byte>)
    returns (d': nat)
    requires |src| <= MAX_BLOCK_SIZE && base + 4 <= s && Agree(src, candidate, base, s - base)
    requires d0 <= d && d + CopySize(base - candidate, s - base) <= dst.Length
    requires Meaning(dst[d0..d], out) == Some(out + src[..base])
    modifies dst
    ensures d' == d + CopySize(base - candidate, s - base)
    ensures Meaning(dst[d0..d'], out) == Some(out + src[..s])
    ensures Framed(dst, old(dst[..]), d, d')
  {
    hide Meaning, Extend;
    ghost var w := dst[d0..d];
    var n := EmitCopy(dst, d, base - candidate, s - base, out + src[..base]);
    d' := d + n;
    assert dst[d0..d'] == w + dst[d..d'];
    MeaningAppend(w, dst[d..d'], out);
    ExtendFollows(out, src, candidate, base, s);
  }

  /** Between two copies: enters s - 1 and s into the table and looks up s. */
  method Rehash(src: seq<Byte>, table: array<nat>, shift: nat, s: nat)
    returns (again: bool, candidate: nat, nextHash: nat)
    requires MIN_NON_LITERAL_BLOCK_SIZE <= |src| <= MAX_BLOCK_SIZE
    requires 1 <= s < |src| - INPUT_MARGIN && TableBelow(table, s)
    modifies table
    ensures TableBelow(table, s + 1)
    ensures again ==> Agree(src, candidate, s, 4)
    ensures !again ==> nextHash == Hash(Load32(src, s + 1), shift)
  {
    hide Load32, Load64, Hash;
    nextHash := 0;
    ShiftedWord(src, s - 1);
    var x := Load64(src, s - 1);
    var prevHash := Hash(x % 0x1_0000_0000, shift);
    table[prevHash % MAX_TABLE_SIZE] := (s - 1) % 65536;
    var currHash := Hash(x / 0x100 % 0x1_0000_0000, shift);
    candidate := table[currHash % MAX_TABLE_SIZE];
    table[currHash % MAX_TABLE_SIZE] := s % 65536;
    again := x / 0x100 % 0x1_0000_0000 == Load32(src, candidate);
    if again {
      AgreeWord(src, candidate, s);
    } else {
      nextHash := Hash(x / 0x1_0000 % 0x1_0000_0000, shift);
    }
  }

  /**
    The copy loop of encodeBlock: from a four-byte match at `s0`, emit the longest copy, and
    again as long as the very next bytes match too. Returns where the next literal starts.
  */
  method EmitMatches(dst: array<Byte>, d0: nat, d1: nat, src: seq<Byte>, table: array<nat>, shift: nat,
                     s0: nat, candidate0: nat, ghost out: seq<Byte>)
    returns (d: nat, nextEmit: nat, nearEnd: bool, s: nat, nextHash: nat)
    requires dst as object != table
    requires MIN_NON_LITERAL_BLOCK_SIZE <= |src| <= MAX_BLOCK_SIZE
    requires s0 < |src| - INPUT_MARGIN
    requires Agree(src, candidate0, s0, 4) && TableBelow(table, s0 + 1)
    requires d0 <= d1 <= d0 + BlockBound(|src|) <= dst.Length
    requires Meaning(dst[d0..d1], out) == Some(out + src[..s0])
    requires 64 * (d1 - d0) <= 65 * s0 + 68
    modifies dst, table
    ensures d1 <= d <= d0 + BlockBound(|src|) && Encoded(dst[d0..d], src, nextEmit, out)
    ensures Framed(dst, old(dst[..]), d1, d0 + BlockBound(|src|))
    ensures s0 < nextEmit
    ensures !nearEnd ==> s == nextEmit + 1 <= |src| - INPUT_MARGIN && TableBelow(table, s)
    ensures !nearEnd ==> nextHash == Hash(Load32(src, s), shift)
  {
    hide Meaning, Load32, Hash;
    nextHash := 0;
    ghost var bound := d0 + BlockBound(|src|);
    var sLimit := |src| - INPUT_MARGIN;
    var candidate := candidate0;
    s, d := s0, d1;
    while true
      invariant s0 <= s < sLimit
      invariant Agree(src, candidate, s, 4) && TableBelow(table, s + 1)
      invariant d1 <= d <= bound && 64 * (d - d0) <= 65 * s + 68
      invariant Meaning(dst[d0..d], out) == Some(out + src[..s])
      invariant Framed(dst, old(dst[..]), d1, bound)
      decreases |src| - s
    {
      var base := s;
      var end := ExtendMatch(src, candidate + 4, s + 4);
      s := end;
      assert Agree(src, candidate, base, s - base);
      d := EmitMatch(dst, d0, d, src, candidate, base, s, out);
      nextEmit := s;
      if s >= sLimit {
        return d, nextEmit, true, s, 0;
      }
      var again;
      again, candidate, nextHash := Rehash(src, table, shift, s);
      if !again {
        return d, nextEmit, false, s + 1, nextHash;
      }
    }
  }

  /** The shift that makes a hash fit the smallest power-of-two table for `n` bytes. */
  method TableShift(n: nat) returns (shift: nat)
    ensures 18 <= shift <= 24
    ensures shift == 18 || n <= TableSize(shift)
    ensures shift < 24 ==> n > TableSize(shift + 1)
  {
    shift := 24;
    var tableSize := 256;
    while tableSize < MAX_TABLE_SIZE && tableSize < n
      invariant 18 <= shift <= 24 && tableSize == TableSize(shift)
      invariant shift < 24 ==> n > TableSize(shift + 1)
      decreases shift
    {
      shift := shift - 1;
      tableSize := tableSize * 2;
    }
  }

  method NewTable() returns (table: array<nat>)
    ensures fresh(table) && TableBelow(table, 1)
  {
    table := new nat[MAX_TABLE_SIZE](_ => 0);
  }

  /** The number of values a 32-bit hash shifted right by `shift` can take. */
  function TableSize(shift: nat): nat
    requires 18 <= shift <= 25
    decreases 25 - shift
  {
    if shift == 25 then 128 else 2 * TableSize(shift + 1)
  }

  /**
    encodeBlock: for any `src` of 17 to 65536 bytes and whatever the hash collisions, the
    bytes written decode to `src` after any `out`, within `BlockBound(|src|)` bytes.
  */
  method EncodeBlock(dst: array<Byte>, d0: nat, src: seq<Byte>, ghost out: seq<Byte>) returns (d: nat)
    requires MIN_NON_LITERAL_BLOCK_SIZE <= |src| <= MAX_BLOCK_SIZE
    requires d0 + BlockBound(|src|) <= dst.Length
    modifies dst
    ensures d0 <= d <= d0 + BlockBound(|src|)
    ensures Meaning(dst[d0..d], out) == Some(out + src)
    ensures Framed(dst, old(dst[..]), d0, d0 + BlockBound(|src|))
  {
    hide Meaning, Load32, Hash, TableBelow, TableSize, CopySize, ReadTag;
    var shift := TableShift(|src|);
    var table := NewTable();
    ghost var bound := d0 + BlockBound(|src|);
    var nextEmit: nat, s: nat := 0, 1;
    var nextHash := Hash(Load32(src, s), shift);
    d := d0;
    NothingEncoded(dst[d0..d], src, out);
    while true
      invariant 1 <= s == nextEmit + 1 <= |src| - INPUT_MARGIN
      invariant TableBelow(table, s) && nextHash == Hash(Load32(src, s), shift)
      invariant d0 <= d <= bound && Encoded(dst[d0..d], src, nextEmit, out)
      invariant Framed(dst, old(dst[..]), d0, bound)
      decreases |src| - s
    {
      var found, candidate;
      found, s, candidate := FindMatch(src, table, shift, s, nextHash);
      if !found {
        break;
      }
      d := EmitPending(dst, d0, d, src, nextEmit, s, out);
      var nearEnd;
      d, nextEmit, nearEnd, s, nextHash := EmitMatches(dst, d0, d, src, table, shift, s, candidate, out);
      if nearEnd {
        break;
      }
    }
    d := EmitRemainder(dst, d0, d, src, nextEmit, out);
  }

  /** The end of encodeBlock: what no copy covers becomes the last literal. */
  method EmitRemainder(dst: array<Byte>, d0: nat, d: nat, src: seq<Byte>, nextEmit: nat, ghost out: seq<Byte>)
    returns (d': nat)
    requires |src| <= MAX_BLOCK_SIZE
    requires d0 <= d && d0 + BlockBound(|src|) <= dst.Length
    requires d <= dst.Length && Encoded(dst[d0..d], src, nextEmit, out)
    modifies dst
    ensures d0 <= d' <= d0 + BlockBound(|src|)
    ensures Meaning(dst[d0..d'], out) == Some(out + src)
    ensures Framed(dst, old(dst[..]), d, d0 + BlockBound(|src|))
  {
    hide Meaning;
    d' := d;
    if nextEmit < |src| {
      d' := EmitPending(dst, d0, d, src, nextEmit, |src|, out);
    }
    assert src[..|src|] == src;
  }

  lemma NothingEncoded(w: seq<Byte>, src: seq<Byte>, out: seq<Byte>)
    requires |w| == 0
    ensures Encoded(w, src, 0, out)
  {
    assert out + src[..0] == out;
  }

  // ---------- Whole inputs ----------

  /** MaxEncodedLen: the room an input of `srcLen` bytes needs, or -1 when it is too large. */
  function MaxEncodedLen(srcLen: nat): int
  {
    if srcLen > 0xffff_ffff then -1
    else
      var n := 32 + srcLen + srcLen / 6;
      if n > 0xffff_ffff then -1 else n
  }

  /** Emits one block of `Encode`, whichever form its length calls for. */
  method EmitBlock(dst: array<Byte>, d: nat, p: seq<Byte>, ghost out: seq<Byte>) returns (d': nat)
    requires 1 <= |p| <= MAX_BLOCK_SIZE
    requires d + BlockBound(|p|) <= dst.Length
    modifies dst
    ensures d <= d' <= d + BlockBound(|p|)
    ensures Meaning(dst[d..d'], out) == Some(out + p)
    ensures Framed(dst, old(dst[..]), d, d + BlockBound(|p|))
  {
    hide ReadTag, Meaning;
    if |p| < MIN_NON_LITERAL_BLOCK_SIZE {
      var n := EmitLiteral(dst, d, p);
      d' := d + n;
      MeaningSingle(dst[d..d'], Literal(p), out);
    } else {
      d' := EncodeBlock(dst, d, p, out);
    }
  }

  /** The loop of Encode: the tags of all blocks of `src`, written from `d0` on. */
  method EncodeBlocks(buf: array<Byte>, d0: nat, src: seq<Byte>) returns (d: nat)
    requires d0 + |src| + |src| / 6 + 4 <= buf.Length
    modifies buf
    ensures d0 <= d <= d0 + |src| + |src| / 6 + 4
    ensures Meaning(buf[d0..d], []) == Some(src)
    ensures Framed(buf, old(buf[..]), d0, buf.Length)
  {
    hide Meaning;
    d := d0;
    var rest := src;
    ghost var done := 0;
    NothingDone(buf[d0..d]);
    while |rest| > 0
      invariant done + |rest| == |src| && rest == src[done..]
      invariant d0 <= d <= buf.Length
      invariant 6 * (d - d0) <= 7 * done + if |rest| > 0 then 0 else 24
      invariant Meaning(buf[d0..d], []) == Some(src[..done])
      invariant Framed(buf, old(buf[..]), d0, buf.Length)
    {
      var p := rest;
      rest := [];
      if |p| > MAX_BLOCK_SIZE {
        p, rest := p[..MAX_BLOCK_SIZE], p[MAX_BLOCK_SIZE..];
      }
      ghost var head, before := buf[..d], d;
      assert head[d0..before] == buf[d0..before];
      d := EmitBlock(buf, d, p, src[..done]);
      BlockAdded(head, buf[..d], before, d0, src, done, p);
      done := done + |p|;
    }
    assert src[..done] == src;
  }

  lemma BlockAdded(head: seq<Byte>, head': seq<Byte>, d: nat, d0: nat, src: seq<Byte>, done: nat, p: seq<Byte>)
    requires d0 <= d == |head| <= |head'| && head'[..d] == head
    requires done + |p| <= |src| && src[done..done + |p|] == p
    requires Meaning(head[d0..d], []) == Some(src[..done])
    requires Meaning(head'[d..], src[..done]) == Some(src[..done] + p)
    ensures Meaning(head'[d0..], []) == Some(src[..done + |p|])
  {
    hide Meaning;
    assert head'[d0..] == head[d0..d] + head'[d..];
    MeaningAppend(head[d0..d], head'[d..], []);
    assert src[..done] + p == src[..done + |p|];
  }

  /** Writes the preamble at `lo`. */
  method PutUvarint(buf: array<Byte>, lo: nat, n: nat) returns (d: nat)
    requires n <= 0xffff_ffff && lo + 5 <= buf.Length
    modifies buf
    ensures lo <= d <= lo + 5 && buf[lo..d] == Uvarint.Put(n)
    ensures Framed(buf, old(buf[..]), lo, d)
  {
    hide Uvarint.Put;
    var preamble := Uvarint.Put(n);
    Uvarint.PutLength(n);
    d := lo + |preamble|;
    forall k | lo <= k < d {
      buf[k] := preamble[k - lo];
    }
  }

  /**
    Encode: the encoded form is `buf[lo'..d]`. It is written in place, at `dst[lo..]`, when
    that has `MaxEncodedLen(|src|)` bytes, and in a new array otherwise; the call panics
    (`ok` is false) exactly when `src` is too large.
  */
  method Encode(dst: array<Byte>, lo: nat, src: seq<Byte>)
    returns (ok: bool, buf: array<Byte>, lo': nat, d: nat)
    requires lo <= dst.Length
    modifies dst
    ensures ok <==> MaxEncodedLen(|src|) >= 0
    ensures ok ==> lo' <= d <= buf.Length && d - lo' <= MaxEncodedLen(|src|)
    ensures ok ==> SnappyDecode.BlockMeaning(buf[lo'..d], 64) == Some(src)
    ensures ok && |src| <= 0x7fff_ffff ==> SnappyDecode.BlockMeaning(buf[lo'..d], 32) == Some(src)
    ensures ok ==> if MaxEncodedLen(|src|) <= dst.Length - lo then buf == dst && lo' == lo else fresh(buf)
    ensures Framed(dst, old(dst[..]), lo, dst.Length)
  {
    hide Meaning, SnappyDecode.BlockMeaning, Uvarint.Put;
    buf, lo', d := dst, lo, lo;
    var n := MaxEncodedLen(|src|);
    if n < 0 {
      return false, dst, lo, lo;
    }
    if dst.Length - lo < n {
      buf, lo' := new Byte[n], 0;
    }
    var d0 := PutUvarint(buf, lo', |src|);
    ghost var before := buf[..];
    d := EncodeBlocks(buf, d0, src);
    PreambleKept(buf, before, lo', d0, d);
    ok := true;
    BlockOf(src, buf[d0..d], 64);
    if |src| <= 0x7fff_ffff {
      BlockOf(src, buf[d0..d], 32);
    }
  }

  /** What was written before the blocks is still there. */
  lemma PreambleKept(buf: array<Byte>, before: seq<Byte>, lo: nat, d0: nat, d: nat)
    requires lo <= d0 <= d <= buf.Length == |before| && forall k | lo <= k < d0 :: buf[k] == before[k]
    ensures buf[lo..d] == before[lo..d0] + buf[d0..d]
  {
  }

  lemma NothingDone(w: seq<Byte>)
    requires |w| == 0
    ensures Meaning(w, []) == Some([])
  {
  }

  /** A preamble followed by tags that produce `src` is a block whose content is `src`. */
  lemma BlockOf(src: seq<Byte>, tags: seq<Byte>, wordSize: int)
    requires wordSize == 32 || wordSize == 64
    requires |src| <= 0xffff_ffff && |src| <= SnappyDecode.MaxInt(wordSize)
    requires Meaning(tags, []) == Some(src)
    ensures SnappyDecode.BlockMeaning(Uvarint.Put(|src|) + tags, wordSize) == Some(src)
  {
    hide Meaning, Uvarint.Get, Uvarint.Put;
    var preamble := Uvarint.Put(|src|);
    Uvarint.PutLength(|src|);
    Uvarint.GetPut(|src|, 0, tags);
    assert (preamble + tags)[|preamble|..] == tags;
  }
}
