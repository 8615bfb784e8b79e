/** The chunk stream on top of the blocks: Writer, Reader, ReadAll and the gwsnappy compressor. */
module SnappyStream {
  import opened Bytes
  import SnappyDecode
  import SnappyEncode

  /** How a stream ends for its reader: with an error, or with the process, which `gwlog.Fatalf` ends. */
  datatype ReadError = EOF | ErrCorrupt | ErrUnsupported | ProcessExit

  const CHUNK_TYPE_COMPRESSED_DATA := 0
  const CHUNK_TYPE_UNCOMPRESSED_DATA := 1
  const CHUNK_HEADER_SIZE := 4
  const MAGIC_CHUNK_LEN := 10
  const OBUF_HEADER_LEN := 14
  const MAX_BLOCK_SIZE := 65536
  const MAX_ENCODED_LEN_OF_MAX_BLOCK_SIZE := 76490
  const MIN_DATA_SIZE_TO_COMPRESS := 512

  // ---------- The meaning of a chunk stream ----------

  datatype Chunk = Stop(error: ReadError) | Data(bytes: seq<Byte>, rest: seq<Byte>)

  /** The first chunk of `input`: a four-byte header (type and length) and a body. */
  ghost function ReadChunk(input: seq<Byte>): (r: Chunk)
    ensures r.Data? ==> |r.rest| < |input|
  {
    if |input| == 0 then Stop(EOF) else
    if |input| < 4 then Stop(ErrCorrupt) else
    var n := U24(input[1], input[2], input[3]);
    if n > MAX_ENCODED_LEN_OF_MAX_BLOCK_SIZE then Stop(ProcessExit) else
    if 2 <= input[0] <= 0x7f then Stop(ErrUnsupported) else
    if input[0] == 1 && n > MAX_BLOCK_SIZE then Stop(ErrCorrupt) else
    if |input| < 4 + n then Stop(ErrCorrupt) else
    var body, rest := input[4..4 + n], input[4 + n..];
    if input[0] == 1 then Data(body, rest)
    else if input[0] >= 0x80 then Data([], rest)
    else
      match SnappyDecode.BlockMeaning(body, 64)
      case None => Stop(ErrCorrupt)
      case Some(m) => if |m| <= MAX_BLOCK_SIZE then Data(m, rest) else Stop(ErrCorrupt)
  }

  /** All bytes a stream holds, and what a reader meets after them. */
  ghost function Content(input: seq<Byte>): (seq<Byte>, ReadError)
    decreases |input|
  {
    match ReadChunk(input)
    case Stop(e) => ([], e)
    case Data(bytes, rest) =>
      var (more, e) := Content(rest);
      (bytes + more, e)
  }

  lemma ReadChunkAppend(a: seq<Byte>, b: seq<Byte>)
    requires ReadChunk(a).Data?
    ensures ReadChunk(a + b) == ReadChunk(a).(rest := ReadChunk(a).rest + b)
  {
    var n := U24(a[1], a[2], a[3]);
    assert (a + b)[4..4 + n] == a[4..4 + n];
    assert (a + b)[4 + n..] == a[4 + n..] + b;
  }

  /** Appending to a complete stream appends to its content. */
  lemma {:induction false} ContentAppend(a: seq<Byte>, b: seq<Byte>)
    requires Content(a).1 == EOF
    ensures Content(a + b) == (Content(a).0 + Content(b).0, Content(b).1)
    decreases |a|
  {
    hide ReadChunk;
    if ReadChunk(a).Stop? {
      OnlyEmptyEnds(a);
      assert a + b == b;
      assert [] + Content(b).0 == Content(b).0;
    } else {
      ReadChunkAppend(a, b);
      var Data(bytes, rest) := ReadChunk(a);
      ContentAppend(rest, b);
      assert bytes + (Content(rest).0 + Content(b).0) == bytes + Content(rest).0 + Content(b).0;
    }
  }

  lemma OnlyEmptyEnds(a: seq<Byte>)
    ensures ReadChunk(a) == Stop(EOF) <==> a == []
  {
  }

  /** The stream announces a chunk that does not fit into the reader's buffer. */
  predicate Oversized(input: seq<Byte>)
  {
    |input| >= 4 && U24(input[1], input[2], input[3]) > MAX_ENCODED_LEN_OF_MAX_BLOCK_SIZE
  }

  /** A stream ends the process exactly when an oversized chunk follows some complete chunks. */
  lemma ExitExactly(input: seq<Byte>)
    ensures Content(input).1 == ProcessExit <==>
              exists k | 0 <= k <= |input| :: Content(input[..k]).1 == EOF && Oversized(input[k..])
  {
    hide Content, Oversized;
    if Content(input).1 == ProcessExit {
      var k := FirstOversized(input);
    }
    forall k | 0 <= k <= |input| && Content(input[..k]).1 == EOF && Oversized(input[k..])
      ensures Content(input).1 == ProcessExit
    {
      assert input == input[..k] + input[k..];
      ContentAppend(input[..k], input[k..]);
      OversizedExits(input[k..]);
    }
  }

  lemma OversizedExits(input: seq<Byte>)
    ensures Oversized(input) <==> ReadChunk(input) == Stop(ProcessExit)
    ensures Oversized(input) ==> Content(input).1 == ProcessExit
  {
  }

  lemma {:induction false} FirstOversized(input: seq<Byte>) returns (k: nat)
    requires Content(input).1 == ProcessExit
    ensures k <= |input| && Content(input[..k]).1 == EOF && Oversized(input[k..])
    decreases |input|
  {
    hide Content, ReadChunk, Oversized;
    Unfold(input);
    Unfold([]);
    if ReadChunk(input).Stop? {
      k := 0;
      OversizedExits(input);
      assert input[..0] == [] && input[0..] == input;
    } else {
      ReadChunkWhole(input);
      var n := FirstLength(input);
      var m := FirstOversized(input[n..]);
      k := n + m;
      SplitAt(input, 0, n, k);
      assert input[n..][..m] == input[n..k] && input[n..][m..] == input[k..];
      ContentAppend(input[..n], input[n..k]);
    }
  }

  /** The length of the first chunk, its header included. */
  function FirstLength(input: seq<Byte>): nat
    requires |input| >= 4
  {
    4 + U24(input[1], input[2], input[3])
  }

  /** The first chunk alone is a complete stream. */
  lemma ReadChunkWhole(input: seq<Byte>)
    requires ReadChunk(input).Data?
    ensures
      |input| >= 4 &&
      var n := FirstLength(input);
      4 <= n <= |input| && ReadChunk(input).rest == input[n..] && Content(input[..n]).1 == EOF
  {
    hide SnappyDecode.BlockMeaning;
    var n := FirstLength(input);
    assert input[..n][4..n] == input[4..n] && input[..n][n..] == [];
    assert ReadChunk(input[..n]) == Data(ReadChunk(input).bytes, []);
    assert Content([]) == ([], EOF);
  }

  /** No beginning of a complete stream ends the process. */
  lemma {:induction false} CompleteNeverExits(s: seq<Byte>, k: nat)
    requires Content(s).1 == EOF && k <= |s|
    ensures Content(s[..k]).1 != ProcessExit
    decreases |s|
  {
    hide Content, ReadChunk;
    Unfold(s);
    if ReadChunk(s).Stop? {
      OnlyEmptyEnds(s);
      assert s[..k] == s;
    } else {
      ReadChunkWhole(s);
      var n := FirstLength(s);
      if k < n {
        CutShort(s, k);
      } else {
        SplitAt(s, 0, n, k);
        assert s[n..][..k - n] == s[n..k];
        ContentAppend(s[..n], s[n..k]);
        CompleteNeverExits(s[n..], k - n);
      }
    }
  }

  lemma CutShort(s: seq<Byte>, k: nat)
    requires ReadChunk(s).Data? && |s| >= 4 && k < FirstLength(s) <= |s|
    ensures Content(s[..k]).1 != ProcessExit
  {
    hide SnappyDecode.BlockMeaning;
    var t := s[..k];
    assert |t| >= 4 ==> t[1] == s[1] && t[2] == s[2] && t[3] == s[3];
  }

  /** A chunk as the writer lays it out. */
  lemma OneChunk(chunk: seq<Byte>, t: Byte, body: seq<Byte>, bytes: seq<Byte>)
    requires t <= 1 && |chunk| == 4 + |body| && chunk[4..] == body
    requires chunk[0] == t && U24(chunk[1], chunk[2], chunk[3]) == |body| <= MAX_ENCODED_LEN_OF_MAX_BLOCK_SIZE
    requires |bytes| <= MAX_BLOCK_SIZE
    requires if t == 1 then body == bytes else SnappyDecode.BlockMeaning(body, 64) == Some(bytes)
    ensures Content(chunk) == (bytes, EOF)
  {
    hide SnappyDecode.BlockMeaning;
    assert chunk[4..4 + |body|] == body;
    assert ReadChunk(chunk) == Data(bytes, []);
    assert Content([]) == ([], EOF);
    assert bytes + [] == bytes;
  }

  // ---------- Writer ----------

  /** A Writer over a sink that accepts every write; `sink` is what the sink received. */
  class Writer {
    const buffered: bool
    const obuf: array<Byte>
    var sink: seq<Byte>
    var closed: bool
    var ibuf: seq<Byte>

    ghost predicate Valid()
      reads this
    {
      && obuf.Length == OBUF_HEADER_LEN + MAX_ENCODED_LEN_OF_MAX_BLOCK_SIZE
      && Content(sink).1 == EOF
      && |ibuf| <= (if buffered then MAX_BLOCK_SIZE else 0)
    }

    /** The bytes accepted so far: those in the sink and those still in the buffer. */
    ghost function Accepted(): seq<Byte>
      reads this
    {
      Content(sink).0 + ibuf
    }

    /** Whatever part of what a writer wrote a reader has, it does not end the reader's process. */
    lemma NeverExits(k: nat)
      requires Valid() && k <= |sink|
      ensures Content(sink[..k]).1 != ProcessExit
    {
      CompleteNeverExits(sink, k);
    }

    /** NewWriter and NewBufferedWriter. */
    constructor (buffered: bool)
      ensures Valid() && this.buffered == buffered && !closed && sink == [] && ibuf == [] && fresh(obuf)
      ensures Accepted() == []
    {
      this.buffered := buffered;
      obuf := new Byte[OBUF_HEADER_LEN + MAX_ENCODED_LEN_OF_MAX_BLOCK_SIZE];
      sink, closed, ibuf := [], false, [];
    }

    method Reset()
      requires Valid()
      modifies this
      ensures Valid() && !closed && sink == [] && Accepted() == []
    {
      sink, closed, ibuf := [], false, [];
    }

    /** The body of write's loop: one chunk holding `uncompressed`, compressed if that gains 12.5%. */
    method WriteChunk(uncompressed: seq<Byte>)
      requires Valid() && 1 <= |uncompressed| <= MAX_BLOCK_SIZE
      modifies this`sink, obuf
      ensures Valid()
      ensures Content(sink).0 == old(Content(sink)).0 + uncompressed
      ensures old(sink) <= sink && |sink| >= |old(sink)| + CHUNK_HEADER_SIZE
      ensures
        var n, body := |uncompressed|, |sink| - |old(sink)| - CHUNK_HEADER_SIZE;
        if sink[|old(sink)|] == CHUNK_TYPE_UNCOMPRESSED_DATA then body == n
        else n >= MIN_DATA_SIZE_TO_COMPRESS && body < n - n / 8
    {
      hide Content, SnappyDecode.BlockMeaning;
      if |uncompressed| >= MIN_DATA_SIZE_TO_COMPRESS {
        var ok, compressed, lo, hi := SnappyEncode.Encode(obuf, OBUF_HEADER_LEN, uncompressed);
        assert ok && compressed == obuf && lo == OBUF_HEADER_LEN;
        if hi - lo < |uncompressed| - |uncompressed| / 8 {
          SendChunk(CHUNK_TYPE_COMPRESSED_DATA, hi - lo, hi, uncompressed);
          return;
        }
      }
      SendChunk(CHUNK_TYPE_UNCOMPRESSED_DATA, |uncompressed|, OBUF_HEADER_LEN, uncompressed);
    }

    method FillHeader(chunkType: Byte, chunkLen: nat)
      requires obuf.Length >= OBUF_HEADER_LEN && chunkLen < 0x100_0000
      modifies obuf
      ensures obuf[MAGIC_CHUNK_LEN] == chunkType
      ensures U24(obuf[MAGIC_CHUNK_LEN + 1], obuf[MAGIC_CHUNK_LEN + 2], obuf[MAGIC_CHUNK_LEN + 3]) == chunkLen
      ensures Framed(obuf, old(obuf[..]), MAGIC_CHUNK_LEN, OBUF_HEADER_LEN)
    {
      obuf[MAGIC_CHUNK_LEN] := chunkType;
      obuf[MAGIC_CHUNK_LEN + 1] := chunkLen % 256;
      obuf[MAGIC_CHUNK_LEN + 2] := chunkLen / 256 % 256;
      obuf[MAGIC_CHUNK_LEN + 3] := chunkLen / 65536 % 256;
    }

    /** Fills in the chunk header and sends the chunk, whose body follows separately when stored raw. */
    method SendChunk(chunkType: Byte, chunkLen: nat, obufEnd: nat, uncompressed: seq<Byte>)
      requires Valid() && |uncompressed| <= MAX_BLOCK_SIZE && chunkType <= 1
      requires chunkLen <= MAX_ENCODED_LEN_OF_MAX_BLOCK_SIZE
      requires OBUF_HEADER_LEN <= obufEnd <= obuf.Length
      requires
        if chunkType == 1 then obufEnd == OBUF_HEADER_LEN && chunkLen == |uncompressed|
        else chunkLen == obufEnd - OBUF_HEADER_LEN
             && SnappyDecode.BlockMeaning(obuf[OBUF_HEADER_LEN..obufEnd], 64) == Some(uncompressed)
      modifies this`sink, obuf
      ensures Valid()
      ensures Content(sink).0 == old(Content(sink)).0 + uncompressed
      ensures old(sink) <= sink && |sink| == |old(sink)| + CHUNK_HEADER_SIZE + chunkLen && sink[|old(sink)|] == chunkType
    {
      hide Content, ReadChunk, SnappyDecode.BlockMeaning;
      ghost var before := sink;
      ghost var body := if chunkType == 1 then uncompressed else obuf[OBUF_HEADER_LEN..obufEnd];
      FillHeader(chunkType, chunkLen);
      ghost var header := obuf[MAGIC_CHUNK_LEN..OBUF_HEADER_LEN];
      assert header + obuf[OBUF_HEADER_LEN..obufEnd] == obuf[MAGIC_CHUNK_LEN..obufEnd];
      sink := sink + obuf[MAGIC_CHUNK_LEN..obufEnd];
      if chunkType == CHUNK_TYPE_UNCOMPRESSED_DATA {
        sink := sink + uncompressed;
      }
      assert sink == before + (header + body);
      OneChunk(header + body, chunkType, body, uncompressed);
      ContentAppend(before, header + body);
    }

    /** write: splits `p` into chunks of at most 65536 bytes. */
    method WriteThrough(p: seq<Byte>) returns (n: nat)
      requires Valid()
      modifies this`sink, obuf
      ensures Valid()
      ensures n == if closed then 0 else |p|
      ensures Content(sink).0 == old(Content(sink)).0 + p[..n]
    {
      hide Content;
      n := 0;
      if closed {
        return;
      }
      var rest := p;
      while |rest| > 0
        invariant Valid() && n + |rest| == |p| && rest == p[n..]
        invariant Content(sink).0 == old(Content(sink)).0 + p[..n]
      {
        var uncompressed := rest;
        rest := [];
        if |uncompressed| > MAX_BLOCK_SIZE {
          uncompressed, rest := uncompressed[..MAX_BLOCK_SIZE], uncompressed[MAX_BLOCK_SIZE..];
        }
        WriteChunk(uncompressed);
        assert p[..n] + uncompressed == p[..n + |uncompressed|];
        n := n + |uncompressed|;
      }
    }

    /** Flush: after it the sink alone holds everything accepted. */
    method Flush()
      requires Valid()
      modifies this`sink, this`ibuf, obuf
      ensures Valid() && Accepted() == old(Accepted())
      ensures !closed ==> ibuf == [] && Content(sink).0 == Accepted()
    {
      hide Content;
      if !closed && |ibuf| > 0 {
        var n := WriteThrough(ibuf);
        ibuf := [];
      }
    }

    /** Write: accepts all of `p`, or nothing once closed. */
    method Write(p: seq<Byte>) returns (n: nat)
      requires Valid()
      modifies this`sink, this`ibuf, obuf
      ensures Valid()
      ensures closed ==> Accepted() <= old(Accepted()) + p
      ensures !closed ==> n == |p| && Accepted() == old(Accepted()) + p
      ensures !closed && !buffered ==> Content(sink).0 == Accepted()
    {
      hide Content;
      if !buffered {
        n := WriteThrough(p);
        assert ibuf == [] && p[..|p|] == p;
        return;
      }
      n := 0;
      var rest := p;
      while |rest| > MAX_BLOCK_SIZE - |ibuf| && !closed
        invariant Valid() && n + |rest| == |p| && rest == p[n..]
        invariant Accepted() == old(Accepted()) + p[..n]
        decreases |rest|, |ibuf|
      {
        var k := Absorb(rest);
        Assoc(old(Accepted()), p[..n], rest[..k]);
        assert p[..n] + rest[..k] == p[..n + k];
        n, rest := n + k, rest[k..];
      }
      if closed {
        return;
      }
      Assoc(Content(sink).0, ibuf, rest);
      Assoc(old(Accepted()), p[..n], rest);
      assert p == p[..n] + rest;
      ibuf := ibuf + rest;
      n := n + |rest|;
    }

    /** One round of the buffered Write's loop: the buffer cannot take all of `rest`. */
    method Absorb(rest: seq<Byte>) returns (k: nat)
      requires Valid() && buffered && !closed && |rest| > MAX_BLOCK_SIZE - |ibuf|
      modifies this`sink, this`ibuf, obuf
      ensures Valid() && ibuf == [] && k <= |rest| && (k > 0 || |old(ibuf)| > 0)
      ensures Accepted() == old(Accepted()) + rest[..k]
    {
      hide Content;
      if |ibuf| == 0 {
        k := WriteThrough(rest);
        assert Content(sink).0 + [] == Content(sink).0;
        assert old(Content(sink).0) + [] == old(Content(sink).0);
      } else {
        k := MAX_BLOCK_SIZE - |ibuf|;
        Assoc(Content(sink).0, ibuf, rest[..k]);
        ibuf := ibuf + rest[..k];
        Flush();
      }
    }

    method Close()
      requires Valid()
      modifies this, obuf
      ensures Valid() && closed && Accepted() == old(Accepted())
      ensures old(!closed) ==> Content(sink).0 == Accepted()
    {
      Flush();
      closed := true;
    }
  }

  // ---------- Reader ----------

  /** A Reader over a source that still holds `input`; decoded[i..j] is decoded but not passed on. */
  class Reader {
    const decoded: array<Byte>
    const buf: array<Byte>
    var input: seq<Byte>
    var err: Option<ReadError>
    var i: nat
    var j: nat

    ghost predicate Valid()
      reads this
    {
      && decoded.Length == MAX_BLOCK_SIZE && buf.Length == MAX_ENCODED_LEN_OF_MAX_BLOCK_SIZE && decoded != buf
      && i <= j <= decoded.Length
      && (err.Some? ==> i == j)
    }

    /** The bytes this reader will still deliver, and the error it reports after them. */
    ghost function Remaining(): (seq<Byte>, ReadError)
      requires Valid()
      reads this, decoded
    {
      if err.Some? then ([], err.value)
      else (decoded[i..j] + Content(input).0, Content(input).1)
    }

    constructor ()
      ensures Valid() && err.None? && Remaining() == ([], EOF) && fresh(decoded) && fresh(buf)
    {
      decoded := new Byte[MAX_BLOCK_SIZE];
      buf := new Byte[MAX_ENCODED_LEN_OF_MAX_BLOCK_SIZE];
      input, err, i, j := [], None, 0, 0;
      new;
      Unfold([]);
      assert decoded[0..0] + [] == [];
    }

    method Reset(source: seq<Byte>)
      requires Valid()
      modifies this
      ensures Valid() && Remaining() == Content(source)
    {
      input, err, i, j := source, None, 0, 0;
      assert decoded[0..0] + Content(source).0 == Content(source).0;
    }

    /** readFull: io.ReadFull into p[..n], with errors turned into corruption where data must follow. */
    method ReadFull(p: array<Byte>, n: nat, allowEOF: bool) returns (ok: bool)
      requires n <= p.Length
      modifies this`input, this`err, p
      ensures ok <==> n <= |old(input)|
      ensures ok ==> err.None? && p[..n] == old(input)[..n] && input == old(input)[n..]
      ensures !ok ==> err == Some(if old(input) == [] && allowEOF then EOF else ErrCorrupt)
      ensures !ok ==> input == []
      ensures p[n..] == old(p[n..])
    {
      var k := if n <= |input| then n else |input|;
      forall m | 0 <= m < k {
        p[m] := input[m];
      }
      var wasEmpty := |input| == 0;
      input := input[k..];
      if k == n {
        err := None;
        return true;
      }
      err := Some(if wasEmpty && allowEOF then EOF else ErrCorrupt);
      return false;
    }

    /** Handles the chunk whose header announced `chunkType` and `chunkLen`; `start` is the stream from it on. */
    method ReadBody(chunkType: Byte, chunkLen: nat, ghost start: seq<Byte>) returns (ok: bool)
      requires Valid() && err.None? && i == j && chunkLen <= buf.Length
      requires |start| >= 4 && chunkType == start[0] && chunkLen == U24(start[1], start[2], start[3])
      requires input == start[4..]
      modifies this, decoded, buf
      ensures Valid()
      ensures ok ==> ReadChunk(start) == Data(decoded[i..j], input) && err.None?
      ensures !ok ==> err.Some? && ReadChunk(start) == Stop(err.value)
    {
      hide SnappyDecode.BlockMeaning;
      if chunkType == CHUNK_TYPE_COMPRESSED_DATA {
        ok := ReadFull(buf, chunkLen, false);
        if !ok {
          return;
        }
        assert buf[..chunkLen] == start[4..4 + chunkLen] && input == start[4 + chunkLen..];
        var block := buf[..chunkLen];
        var length := SnappyDecode.DecodedLen(block, 64);
        if length.Err? {
          err := Some(ErrCorrupt);
          assert SnappyDecode.BlockMeaning(block, 64).None? by { NoLength(block); }
          return false;
        }
        if length.value.0 > decoded.Length {
          err := Some(ErrCorrupt);
          BlockLength(block);
          return false;
        }
        BlockLength(block);
        var e, b, n := SnappyDecode.Decode(decoded, block, 64);
        if e.Some? {
          err := Some(ErrCorrupt);
          return false;
        }
        i, j := 0, length.value.0;
      } else if chunkType == CHUNK_TYPE_UNCOMPRESSED_DATA {
        if chunkLen > decoded.Length {
          err := Some(ErrCorrupt);
          return false;
        }
        ok := ReadFull(decoded, chunkLen, false);
        if !ok {
          return;
        }
        i, j := 0, chunkLen;
        assert decoded[i..j] == start[4..4 + chunkLen] && input == start[4 + chunkLen..];
      } else if chunkType <= 0x7f {
        err := Some(ErrUnsupported);
        return false;
      } else {
        ok := ReadFull(buf, chunkLen, false);
        if !ok {
          return;
        }
        assert input == start[4 + chunkLen..] && decoded[i..j] == [];
      }
      return true;
    }

    /** One round of Read's loop: the next chunk, or the stream's error. */
    method Refill() returns (ok: bool)
      requires Valid() && err.None? && i == j
      modifies this, decoded, buf
      ensures Valid() && Remaining() == old(Remaining())
      ensures ok <==> err.None?
      ensures ok ==> |input| < |old(input)|
    {
      hide Content, ReadChunk;
      ghost var start := input;
      assert old(decoded[i..j]) + Content(start).0 == Content(start).0;
      Unfold(start);
      ok := ReadFull(buf, 4, true);
      if !ok {
        return;
      }
      assert buf[..4] == start[..4];
      assert buf[1] == start[1] && buf[2] == start[2] && buf[3] == start[3];
      var chunkLen := U24(buf[1], buf[2], buf[3]);
      if chunkLen > buf.Length {
        // Fatalf: the process ends here
        err := Some(ProcessExit);
        return false;
      }
      ok := ReadBody(buf[0], chunkLen, start);
    }

    /**
      Read: fills p[lo..] with the next bytes of the stream, as many as are decoded, or reports
      the stream's error once all bytes before it were delivered; `ProcessExit` stands for a call
      that ends the process instead.
    */
    method Read(p: array<Byte>, lo: nat) returns (n: nat, e: Option<ReadError>)
      requires Valid() && lo <= p.Length && p != decoded && p != buf
      modifies this, decoded, buf, p
      ensures Valid() && lo + n <= p.Length
      ensures old(Remaining()) == (p[lo..lo + n] + Remaining().0, Remaining().1)
      ensures e.Some? ==> n == 0 && Remaining() == ([], e.value)
      ensures e.None? && lo < p.Length ==> n > 0
      ensures Framed(p, old(p[..]), lo, lo + n)
    {
      hide Content;
      n := 0;
      assert p[lo..lo] + old(Remaining()).0 == old(Remaining()).0;
      if err.Some? {
        return 0, err;
      }
      while i >= j
        invariant Valid() && err.None?
        invariant Remaining() == old(Remaining())
        invariant p[..] == old(p[..])
        decreases |input|
      {
        var ok := Refill();
        if !ok {
          return 0, err;
        }
      }
      n := if p.Length - lo < j - i then p.Length - lo else j - i;
      Deliver(p, lo, n);
      e := None;
    }

    /** Passes on the next `n` decoded bytes. */
    method Deliver(p: array<Byte>, lo: nat, n: nat)
      requires Valid() && err.None? && i + n <= j && lo + n <= p.Length && p != decoded && p != buf
      modifies this`i, p
      ensures Valid()
      ensures old(Remaining()) == (p[lo..lo + n] + Remaining().0, Remaining().1)
      ensures Framed(p, old(p[..]), lo, lo + n)
    {
      hide Content;
      SplitAt(decoded[..], i, i + n, j);
      ghost var part, after := decoded[i..i + n], decoded[i + n..j];
      assert decoded[i..j] == part + after;
      Assoc(part, after, Content(input).0);
      forall k | lo <= k < lo + n {
        p[k] := decoded[i + (k - lo)];
      }
      assert p[lo..lo + n] == part;
      i := i + n;
      assert decoded[i..j] == after;
    }
  }

  lemma SplitAt(s: seq<Byte>, a: nat, b: nat, c: nat)
    requires a <= b <= c <= |s|
    ensures s[a..c] == s[a..b] + s[b..c]
  {
  }

  lemma NoLength(block: seq<Byte>)
    requires SnappyDecode.DecodedLen(block, 64).Err?
    ensures SnappyDecode.BlockMeaning(block, 64).None?
  {
  }

  lemma BlockLength(block: seq<Byte>)
    requires SnappyDecode.DecodedLen(block, 64).Ok?
    ensures
      var m := SnappyDecode.BlockMeaning(block, 64);
      m.Some? ==> |m.value| == SnappyDecode.DecodedLen(block, 64).value.0
  {
  }

  lemma Unfold(input: seq<Byte>)
    ensures ReadChunk(input).Stop? ==> Content(input) == ([], ReadChunk(input).error)
    ensures ReadChunk(input).Data? ==>
              Content(input) == (ReadChunk(input).bytes + Content(ReadChunk(input).rest).0, Content(ReadChunk(input).rest).1)
    ensures |input| == 0 ==> ReadChunk(input) == Stop(EOF)
    ensures 0 < |input| < 4 ==> ReadChunk(input) == Stop(ErrCorrupt)
    ensures |input| >= 4 && U24(input[1], input[2], input[3]) > MAX_ENCODED_LEN_OF_MAX_BLOCK_SIZE ==>
              ReadChunk(input) == Stop(ProcessExit)
  {
  }

  // ---------- ReadAll and the compressor ----------

  /** gwioutil.ReadAll: calls Read until `data` is full or an error is met. */
  method ReadAll(r: Reader, data: array<Byte>) returns (e: Option<ReadError>)
    requires r.Valid() && data != r.decoded && data != r.buf
    modifies r, r.decoded, r.buf, data
    ensures r.Valid()
    ensures e.None? <==> data.Length == 0 || data.Length <= |old(r.Remaining()).0|
    ensures e.None? ==> old(r.Remaining()) == (data[..] + r.Remaining().0, r.Remaining().1)
    ensures e.Some? ==> e.value == old(r.Remaining()).1
  {
    hide Content, Reader.Remaining;
    var done := 0;
    ghost var total := r.Remaining();
    assert data[..0] + total.0 == total.0;
    while done < data.Length
      invariant r.Valid() && done <= data.Length
      invariant total.0 == data[..done] + r.Remaining().0 && total.1 == r.Remaining().1
    {
      ghost var head := data[..done];
      var n;
      n, e := r.Read(data, done);
      ghost var part := data[done..done + n];
      assert data[..done + n] == head + part;
      Assoc(head, part, r.Remaining().0);
      if e.Some? {
        return;
      }
      done := done + n;
    }
    assert data[..done] == data[..];
    e := None;
  }

  lemma Assoc(a: seq<Byte>, b: seq<Byte>, c: seq<Byte>)
    ensures a + (b + c) == a + b + c
  {
  }

  /** gwsnappyCompressor: one writer and one reader, reset for each message. */
  class GWSnappyCompressor {
    const writer: Writer
    const reader: Reader

    ghost predicate Valid()
      reads this, writer, reader
    {
      && writer.Valid() && reader.Valid() && !writer.buffered
      && writer.obuf != reader.decoded && writer.obuf != reader.buf
    }

    constructor ()
      ensures Valid()
    {
      var w := new Writer(false);
      var r := new Reader();
      writer, reader := w, r;
    }

    /** Compress: appends to `c` a stream whose content is `b`. */
    method Compress(b: seq<Byte>, c: seq<Byte>) returns (r: seq<Byte>)
      requires Valid()
      modifies writer, writer.obuf
      ensures Valid()
      ensures c <= r && Content(r[|c|..]) == (b, EOF)
    {
      hide Content;
      writer.Reset();
      var n := writer.Write(b);
      writer.Flush();
      r := c + writer.sink;
      assert r[|c|..] == writer.sink;
      assert [] + b == b;
    }

    /**
      Decompress: succeeds exactly when the stream `c` holds enough bytes to fill `b`. It ends the
      process exactly when an oversized chunk comes before there are enough.
    */
    method Decompress(c: seq<Byte>, b: array<Byte>) returns (e: Option<ReadError>)
      requires Valid() && b != reader.decoded && b != reader.buf
      modifies reader, reader.decoded, reader.buf, b
      ensures reader.Valid()
      ensures e.None? <==> b.Length == 0 || b.Length <= |Content(c).0|
      ensures e.None? ==> b[..] <= Content(c).0
      ensures e.Some? ==> e.value == Content(c).1
      ensures
        e == Some(ProcessExit) <==>
          0 < b.Length && |Content(c).0| < b.Length
          && exists k | 0 <= k <= |c| :: Content(c[..k]).1 == EOF && Oversized(c[k..])
    {
      ExitExactly(c);
      hide Content;
      reader.Reset(c);
      e := ReadAll(reader, b);
    }
  }

  /** What a message becomes after both directions, as testCompressor checks it: itself. */
  method CompressThenDecompress(sc: GWSnappyCompressor, b: seq<Byte>) returns (e: Option<ReadError>, rb: array<Byte>)
    requires sc.Valid()
    modifies sc.writer, sc.writer.obuf, sc.reader, sc.reader.decoded, sc.reader.buf
    ensures e.None? && rb[..] == b
  {
    hide Content;
    var c := sc.Compress(b, []);
    assert c[0..] == c;
    rb := new Byte[|b|];
    e := sc.Decompress(c, rb);
  }
}
