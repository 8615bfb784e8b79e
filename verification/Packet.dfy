/** Packets with pooled buffers: Packet.go. */
module Packets {
  import opened Bytes

  const MIN_PAYLOAD_CAP := 128
  const MAX_PAYLOAD_LENGTH := 25 * 1024 * 1024 - 4
  const COMPRESS_THRESHOLD := 512
  const COMPRESSED_BIT := 0x8000_0000

  /** predefinePayloadCapacities. */
  const CAPACITIES: seq<nat> := [512, 2048, 8192, 32768, 131072, 524288, 2097152, 8388608, MAX_PAYLOAD_LENGTH]

  /** The loop of init: capacities grow fourfold up to the largest payload. */
  method InitCapacities() returns (capacities: seq<nat>)
    ensures capacities == CAPACITIES
  {
    capacities := [];
    var payloadCap := MIN_PAYLOAD_CAP * 4;
    while payloadCap < MAX_PAYLOAD_LENGTH
      invariant |capacities| <= 8 && capacities == CAPACITIES[..|capacities|]
      invariant payloadCap == if |capacities| < 8 then CAPACITIES[|capacities|] else 33554432
      decreases 8 - |capacities|
    {
      capacities := capacities + [payloadCap];
      payloadCap := payloadCap * 4;
    }
    capacities := capacities + [MAX_PAYLOAD_LENGTH];
  }

  /** getPayloadCapOfPayloadLen: the smallest capacity that holds `n` bytes, or the largest there is. */
  method CapOfLen(n: nat) returns (c: nat)
    ensures c in CAPACITIES
    ensures n <= c || c == MAX_PAYLOAD_LENGTH
    ensures forall k | k in CAPACITIES && n <= k :: c <= k
  {
    assert forall i, j | 0 <= i <= j < |CAPACITIES| :: CAPACITIES[i] <= CAPACITIES[j];
    for i := 0 to |CAPACITIES|
      invariant forall j | 0 <= j < i :: CAPACITIES[j] < n
    {
      if CAPACITIES[i] >= n {
        return CAPACITIES[i];
      }
    }
    return MAX_PAYLOAD_LENGTH;
  }

  // ---------- Numbers on the wire ----------

  /** `x` in `n` bytes, little-endian; higher bits are cut off. */
  function ToLE(x: nat, n: nat): (r: seq<Byte>)
    ensures |r| == n
  {
    if n == 0 then [] else [x % 256] + ToLE(x / 256, n - 1)
  }

  function Pow256(n: nat): nat
  {
    if n == 0 then 1 else 256 * Pow256(n - 1)
  }

  lemma {:induction false} FromToLE(x: nat, n: nat)
    requires x < Pow256(n)
    ensures LE(ToLE(x, n)) == x
  {
    if n > 0 {
      FromToLE(x / 256, n - 1);
      assert ToLE(x, n)[1..] == ToLE(x / 256, n - 1);
    }
  }

  // ---------- Messages: sequences of fields ----------

  /** What the Append methods write; `width` is the size of a number, `size` of an identifier. */
  datatype Kind = Number(width: nat) | Fixed(size: nat) | Var
  datatype Field = Num(n: nat) | Blob(bytes: seq<Byte>)

  predicate Fits(f: Field, k: Kind)
  {
    match k
    case Number(width) => f.Num? && f.n < Pow256(width)
    case Fixed(size) => f.Blob? && |f.bytes| == size
    case Var => f.Blob? && |f.bytes| < Pow256(4)
  }

  /** AppendByte, AppendUint16, AppendUint32, AppendUint64; AppendEntityID; AppendVarBytes. */
  function Written(f: Field, k: Kind): seq<Byte>
    requires Fits(f, k)
  {
    match k
    case Number(width) => ToLE(f.n, width)
    case Fixed(_) => f.bytes
    case Var => ToLE(|f.bytes|, 4) + f.bytes
  }

  /** The matching Read methods: the field and what is left. */
  function ReadField(s: seq<Byte>, k: Kind): Option<(Field, seq<Byte>)>
  {
    match k
    case Number(width) => if |s| < width then None else Some((Num(LE(s[..width])), s[width..]))
    case Fixed(size) => if |s| < size then None else Some((Blob(s[..size]), s[size..]))
    case Var =>
      if |s| < 4 then None else
      var n := LE(s[..4]);
      if |s| - 4 < n then None else Some((Blob(s[4..4 + n]), s[4 + n..]))
  }

  /** What is on the wire: little-endian numbers, identifiers as they are, and bytes after their length. */
  lemma WrittenMeans(f: Field, k: Kind)
    requires Fits(f, k)
    ensures k.Number? ==> |Written(f, k)| == k.width && LE(Written(f, k)) == f.n
    ensures k.Fixed? ==> Written(f, k) == f.bytes
    ensures k.Var? ==> |Written(f, k)| == 4 + |f.bytes| && LE(Written(f, k)[..4]) == |f.bytes| && Written(f, k)[4..] == f.bytes
  {
    match k
    case Number(width) => FromToLE(f.n, width);
    case Fixed(_) =>
    case Var =>
      FromToLE(|f.bytes|, 4);
      assert Written(f, k)[..4] == ToLE(|f.bytes|, 4);
  }

  predicate AllFit(fs: seq<Field>, ks: seq<Kind>)
  {
    |fs| == |ks| && forall i | 0 <= i < |fs| :: Fits(fs[i], ks[i])
  }

  function WrittenAll(fs: seq<Field>, ks: seq<Kind>): seq<Byte>
    requires AllFit(fs, ks)
  {
    if |fs| == 0 then [] else Written(fs[0], ks[0]) + WrittenAll(fs[1..], ks[1..])
  }

  function ReadAll(s: seq<Byte>, ks: seq<Kind>): Option<(seq<Field>, seq<Byte>)>
    decreases |ks|
  {
    if |ks| == 0 then Some(([], s)) else
    match ReadField(s, ks[0])
    case None => None
    case Some((f, rest)) =>
      match ReadAll(rest, ks[1..])
      case None => None
      case Some((fs, rest')) => Some(([f] + fs, rest'))
  }

  lemma ReadWritten(f: Field, k: Kind, rest: seq<Byte>)
    requires Fits(f, k)
    ensures ReadField(Written(f, k) + rest, k) == Some((f, rest))
  {
    var s := Written(f, k) + rest;
    match k
    case Number(width) =>
      FromToLE(f.n, width);
      assert s[..width] == ToLE(f.n, width) && s[width..] == rest;
    case Fixed(size) =>
      assert s[..size] == f.bytes && s[size..] == rest;
    case Var =>
      var n := |f.bytes|;
      FromToLE(n, 4);
      assert s[..4] == ToLE(n, 4) && s[4..4 + n] == f.bytes && s[4 + n..] == rest;
  }

  lemma Assoc(a: seq<Byte>, b: seq<Byte>, c: seq<Byte>)
    ensures a + b + c == a + (b + c)
  {
  }

  /** Reading a message field by field gives back what was appended, and consumes exactly that. */
  lemma {:induction false} ReadBack(fs: seq<Field>, ks: seq<Kind>, rest: seq<Byte>)
    requires AllFit(fs, ks)
    ensures ReadAll(WrittenAll(fs, ks) + rest, ks) == Some((fs, rest))
    decreases |fs|
  {
    if |fs| == 0 {
      assert [] + rest == rest;
    } else {
      var tail := WrittenAll(fs[1..], ks[1..]);
      ReadWritten(fs[0], ks[0], tail + rest);
      ReadBack(fs[1..], ks[1..], rest);
      hide Written, ReadField, Fits;
      Assoc(Written(fs[0], ks[0]), tail, rest);
      assert fs == [fs[0]] + fs[1..];
    }
  }

  // ---------- Buffers ----------

  /** A packet; the length word at the head of its buffer is kept as a number. */
  class Packet {
    const initialBytes: array<Byte>
    var bytes: array<Byte>
    var word: nat
    var readCursor: nat
    var notCompress: bool
    var refcount: int

    constructor ()
      ensures Valid() && fresh(initialBytes) && bytes == initialBytes && word == 0 && refcount == 0 && !notCompress
      ensures readCursor == 0
    {
      initialBytes := new Byte[MIN_PAYLOAD_CAP];
      bytes, word, readCursor, notCompress, refcount := initialBytes, 0, 0, false, 0;
    }

    /** GetPayloadLen and isCompressed. */
    function Len(): (n: nat)
      reads this
    {
      word % COMPRESSED_BIT
    }

    predicate IsCompressed()
      reads this
    {
      word / COMPRESSED_BIT % 2 == 1
    }

    /** The payload fits the buffer, whose capacity is 128 or one of the predefined ones. */
    ghost predicate Valid()
      reads this
    {
      && word < 2 * COMPRESSED_BIT
      && initialBytes.Length == MIN_PAYLOAD_CAP
      && (bytes == initialBytes || bytes.Length in CAPACITIES)
      && Len() <= bytes.Length
    }

    function Payload(): seq<Byte>
      requires Valid()
      reads this, bytes
    {
      bytes[..Len()]
    }

    /** Puts `v` behind the payload and counts it in the length word. */
    method Put(v: seq<Byte>)
      requires Valid() && Len() + |v| <= bytes.Length
      modifies this`word, bytes
      ensures Valid() && Payload() == old(Payload()) + v && IsCompressed() == old(IsCompressed())
    {
      var n := Len();
      ghost var before := Payload();
      forall i | n <= i < n + |v| {
        bytes[i] := v[i - n];
      }
      assert bytes[..n + |v|] == before + v;
      WordPlus(word, |v|);
      word := word + |v|;
    }

    /** PopUint32: takes the last four bytes off the payload. */
    method PopUint32() returns (v: nat)
      requires Valid() && Len() >= 4
      modifies this`word
      ensures Valid() && v == LE(old(Payload())[old(Len()) - 4..])
      ensures Payload() == old(Payload())[..old(Len()) - 4]
    {
      var n := Len();
      assert bytes[n - 4..n] == Payload()[n - 4..];
      v := LE(bytes[n - 4..n]);
      word := word - 4;
      WordPlus(word, 4);
    }

    /** setPayloadLenCompressed. */
    method SetPayloadLenCompressed(n: nat, compressed: bool)
      requires Valid() && n <= bytes.Length
      modifies this`word
      ensures Valid() && Payload() == bytes[..n] && IsCompressed() == compressed
    {
      word := n + if compressed then COMPRESSED_BIT else 0;
      assert Len() == n;
    }

    /** Continues in another buffer, with the same payload. */
    method MoveTo(buffer: array<Byte>)
      requires Valid() && buffer.Length in CAPACITIES && Len() <= buffer.Length && buffer != bytes
      modifies this`bytes, buffer
      ensures Valid() && bytes == buffer && Payload() == old(Payload())
    {
      forall i | 0 <= i < Len() {
        buffer[i] := bytes[i];
      }
      bytes := buffer;
    }

    /** Continues in another buffer, with another payload. */
    method Replace(buffer: array<Byte>, v: seq<Byte>, compressed: bool)
      requires Valid() && buffer.Length in CAPACITIES && |v| <= buffer.Length
      modifies this`word, this`bytes, buffer
      ensures Valid() && bytes == buffer && Payload() == v && IsCompressed() == compressed
    {
      forall i | 0 <= i < |v| {
        buffer[i] := v[i];
      }
      bytes := buffer;
      word := |v| + if compressed then COMPRESSED_BIT else 0;
      assert Len() == |v|;
      assert bytes[..|v|] == v;
    }
  }

  /** The buffers waiting for reuse, and the packets in use. */
  class Pools {
    var free: set<array<Byte>>
    ghost var live: set<Packet>

    /** No buffer is in a pool and in a packet, nor in two packets. */
    ghost predicate Valid()
      reads this, live
    {
      && (forall b | b in free :: b.Length in CAPACITIES)
      && (forall p | p in live :: p.Valid() && p.bytes !in free && p.initialBytes !in free)
      && (forall p, q | p in live && q in live && p != q ::
            p.bytes != q.bytes && p.bytes != q.initialBytes && p.initialBytes != q.initialBytes)
    }

    constructor ()
      ensures Valid() && live == {} && free == {}
    {
      free, live := {}, {};
    }

    /** sync.Pool.Get: some free buffer of this capacity, or a new one. */
    method Get(c: nat) returns (b: array<Byte>)
      requires Valid() && c in CAPACITIES
      modifies this`free
      ensures Valid() && live == old(live)
      ensures b.Length == c && b !in free && free <= old(free)
      ensures fresh(b) || b in old(free)
    {
      if b0: array<Byte> :| b0 in free && b0.Length == c {
        b := b0;
        free := free - {b0};
      } else {
        b := new Byte[c];
      }
    }

    /** allocPacket: a packet from the pool, which Release left empty, or a new one. */
    method Alloc() returns (p: Packet)
      requires Valid()
      modifies this`live
      ensures Valid() && live == old(live) + {p} && p !in old(live) && fresh(p) && fresh(p.bytes)
      ensures p.refcount == 1 && p.word == 0 && !p.notCompress && p.readCursor == 0 && p.Payload() == []
    {
      p := new Packet();
      p.refcount := 1;
      live := live + {p};
    }

    /** AssureCapacity: room for `need` more bytes, if any buffer has it; the payload stays. */
    method AssureCapacity(p: Packet, need: nat)
      requires Valid() && p in live
      modifies this`free, p`bytes, free
      ensures Valid() && live == old(live)
      ensures p.Payload() == old(p.Payload())
      ensures old(p.Len() + need <= p.bytes.Length) ==> p.bytes == old(p.bytes) && free == old(free)
      ensures p.Len() + need <= p.bytes.Length || p.bytes.Length == MAX_PAYLOAD_LENGTH
      ensures p.bytes == old(p.bytes) || p.bytes in old(free) || fresh(p.bytes)
      ensures p.bytes != old(p.bytes) ==> p.bytes != p.initialBytes
      ensures forall b | b in free :: b in old(free) || b == old(p.bytes)
    {
      var requireCap := p.Len() + need;
      if requireCap <= p.bytes.Length {
        return;
      }
      var resizeToCap := CapOfLen(requireCap);
      var buffer := Get(resizeToCap);
      var oldBytes := p.bytes;
      p.MoveTo(buffer);
      if oldBytes.Length > MIN_PAYLOAD_CAP {
        free := free + {oldBytes};
      }
    }

    /** AppendBytes; it panics (`ok` is false) when no buffer is large enough. */
    method AppendBytes(p: Packet, v: seq<Byte>) returns (ok: bool)
      requires Valid() && p in live
      modifies this`free, p`bytes, p`word, p.bytes, free
      ensures Valid() && live == old(live)
      ensures ok <==> old(p.Len()) + |v| <= MAX_PAYLOAD_LENGTH || old(p.Len() + |v| <= p.bytes.Length)
      ensures ok ==> p.Payload() == old(p.Payload()) + v && p.IsCompressed() == old(p.IsCompressed())
      ensures !ok ==> p.Payload() == old(p.Payload()) && p.word == old(p.word)
      ensures old(p.Len() + |v| <= p.bytes.Length) ==> p.bytes == old(p.bytes) && free == old(free)
      ensures p.bytes == old(p.bytes) || p.bytes in old(free) || fresh(p.bytes)
      ensures forall b | b in free :: b in old(free) || b == old(p.bytes)
    {
      AssureCapacity(p, |v|);
      var n := p.Len();
      if n + |v| > p.bytes.Length {
        return false;
      }
      p.Put(v);
      ok := true;
    }

    /** Release; dropping the last reference returns the buffer and the packet to their pools. */
    method Release(p: Packet) returns (ok: bool)
      requires Valid() && p in live
      modifies this, p`bytes, p`word, p`readCursor, p`notCompress, p`refcount
      ensures Valid() && p.refcount == old(p.refcount) - 1
      ensures ok <==> p.refcount >= 0
      ensures live == if p.refcount == 0 then old(live) - {p} else old(live)
      ensures p.refcount == 0 ==> p.Valid() && p.bytes == p.initialBytes && p.word == 0 && p.readCursor == 0 && !p.notCompress
      ensures free == old(free) + if p.refcount == 0 && old(p.bytes) != p.initialBytes then {old(p.bytes)} else {}
    {
      p.refcount := p.refcount - 1;
      if p.refcount == 0 {
        live := live - {p};
        if p.bytes.Length > MIN_PAYLOAD_CAP {
          free := free + {p.bytes};
          p.bytes := p.initialBytes;
        }
        p.readCursor := 0;
        p.word := 0;
        p.notCompress := false;
      }
      ok := p.refcount >= 0;
    }

    /**
      compress: the payload becomes its compressed form followed by its own length, in a buffer
      of the same capacity, when that is shorter; otherwise nothing changes.
    */
    method Compress(p: Packet, deflate: seq<Byte> -> seq<Byte>)
      requires Valid() && p in live
      modifies this`free, p`bytes, p`word, p.bytes, free
      ensures Valid() && live == old(live)
      ensures (p.IsCompressed(), p.Payload()) == Packed(old(p.IsCompressed()), old(p.Payload()), p.notCompress, deflate)
      ensures
        var was, c := old(p.Payload()), deflate(old(p.Payload()));
        if old(!p.notCompress && !p.IsCompressed()) && |was| >= 512 && |c| < |was| - 4 then
          p.IsCompressed() && p.Payload()[..|p.Payload()| - 4] == c && LE(p.Payload()[|p.Payload()| - 4..]) == |was|
        else
          p.IsCompressed() == old(p.IsCompressed()) && p.Payload() == was
      ensures p.bytes.Length == old(p.bytes.Length)
      ensures p.bytes == old(p.bytes) || p.bytes in old(free) || fresh(p.bytes)
      ensures forall b | b in free :: b in old(free) || b == old(p.bytes)
    {
      PackedMeans(p.IsCompressed(), p.Payload(), p.notCompress, deflate);
      if p.notCompress || p.IsCompressed() || p.Len() < COMPRESS_THRESHOLD {
        return;
      }
      var oldPayloadLen := p.Len();
      var compressedBuffer := Get(p.bytes.Length);
      var c := deflate(p.Payload());
      if |c| >= oldPayloadLen - 4 {
        return;
      }
      free := free + {p.bytes};
      p.Replace(compressedBuffer, c, true);
      var ok := AppendBytes(p, ToLE(oldPayloadLen, 4));
      assert p.bytes == compressedBuffer;
    }

    /** decompress: the inverse; it panics when the packet is malformed. */
    method Decompress(p: Packet, inflate: (seq<Byte>, nat) -> Option<seq<Byte>>) returns (ok: bool)
      requires Valid() && p in live
      requires forall c, n | inflate(c, n).Some? :: |inflate(c, n).value| == n
      modifies this`free, p`bytes, p`word, free
      ensures Valid() && live == old(live)
      ensures ok <==> Unpacked(old(p.IsCompressed()), old(p.Payload()), inflate).Some?
      ensures ok ==> !p.IsCompressed() && Some(p.Payload()) == Unpacked(old(p.IsCompressed()), old(p.Payload()), inflate)
      ensures p.bytes == old(p.bytes) || p.bytes in old(free) || fresh(p.bytes)
      ensures forall b | b in free :: b in old(free) || b == old(p.bytes)
    {
      if !p.IsCompressed() {
        return true;
      }
      if p.Len() < 4 {
        return false;
      }
      var uncompressedPayloadLen := p.PopUint32();
      var c := CapOfLen(uncompressedPayloadLen);
      var uncompressedBuffer := Get(c);
      if uncompressedPayloadLen > uncompressedBuffer.Length {
        return false;
      }
      var d := inflate(p.Payload(), uncompressedPayloadLen);
      if d.None? {
        return false;
      }
      SwapBuffer(p, uncompressedBuffer, d.value);
      return true;
    }

    /** The end of decompress: the old buffer goes back, unless it is the packet's own. */
    method SwapBuffer(p: Packet, buffer: array<Byte>, v: seq<Byte>)
      requires Valid() && p in live && buffer.Length in CAPACITIES && |v| <= buffer.Length && buffer !in free
      requires forall q | q in live :: buffer != q.bytes && buffer != q.initialBytes
      modifies this`free, p`bytes, p`word, buffer
      ensures Valid() && live == old(live)
      ensures p.bytes == buffer && p.Payload() == v && !p.IsCompressed()
      ensures forall b | b in free :: b in old(free) || b == old(p.bytes)
    {
      if p.bytes.Length != MIN_PAYLOAD_CAP {
        free := free + {p.bytes};
      }
      p.Replace(buffer, v, false);
    }
  }

  lemma WordPlus(word: nat, n: nat)
    requires word % COMPRESSED_BIT + n < COMPRESSED_BIT
    ensures (word + n) % COMPRESSED_BIT == word % COMPRESSED_BIT + n
    ensures (word + n) / COMPRESSED_BIT == word / COMPRESSED_BIT
  {
  }

  // ---------- Compression is transparent ----------

  /** The compressed bit and payload a packet is sent with. */
  function Packed(compressed: bool, payload: seq<Byte>, notCompress: bool, deflate: seq<Byte> -> seq<Byte>): (bool, seq<Byte>)
  {
    var c := deflate(payload);
    if !notCompress && !compressed && |payload| >= COMPRESS_THRESHOLD && |c| < |payload| - 4
    then (true, c + ToLE(|payload|, 4))
    else (compressed, payload)
  }

  lemma PackedMeans(compressed: bool, payload: seq<Byte>, notCompress: bool, deflate: seq<Byte> -> seq<Byte>)
    requires |payload| < COMPRESSED_BIT
    ensures
      var (bit, sent) := Packed(compressed, payload, notCompress, deflate);
      if !notCompress && !compressed && |payload| >= 512 && |deflate(payload)| < |payload| - 4 then
        bit && |sent| >= 4 && sent[..|sent| - 4] == deflate(payload) && LE(sent[|sent| - 4..]) == |payload|
      else bit == compressed && sent == payload
  {
    var c := deflate(payload);
    var sent := c + ToLE(|payload|, 4);
    assert sent[..|sent| - 4] == c && sent[|sent| - 4..] == ToLE(|payload|, 4);
    assert Pow256(4) == 256 * (256 * (256 * (256 * Pow256(0))));
    FromToLE(|payload|, 4);
  }

  /** The payload a received packet stands for; None where `decompress` panics. */
  function Unpacked(compressed: bool, payload: seq<Byte>, inflate: (seq<Byte>, nat) -> Option<seq<Byte>>): Option<seq<Byte>>
  {
    if !compressed then Some(payload) else
    if |payload| < 4 then None else
    var n := LE(payload[|payload| - 4..]);
    if n > MAX_PAYLOAD_LENGTH then None else inflate(payload[..|payload| - 4], n)
  }

  /** For any compressor that restores this payload, packing and unpacking gives the payload back. */
  lemma PackUnpack(payload: seq<Byte>, notCompress: bool, deflate: seq<Byte> -> seq<Byte>,
                   inflate: (seq<Byte>, nat) -> Option<seq<Byte>>)
    requires |payload| <= MAX_PAYLOAD_LENGTH
    requires inflate(deflate(payload), |payload|) == Some(payload)
    ensures
      var (compressed, sent) := Packed(false, payload, notCompress, deflate);
      Unpacked(compressed, sent, inflate) == Some(payload) && |sent| <= |payload|
  {
    var (compressed, sent) := Packed(false, payload, notCompress, deflate);
    if compressed {
      var c := deflate(payload);
      assert sent[..|sent| - 4] == c && sent[|sent| - 4..] == ToLE(|payload|, 4);
      assert Pow256(4) == 256 * (256 * (256 * (256 * Pow256(0))));
      FromToLE(|payload|, 4);
    }
  }
}
