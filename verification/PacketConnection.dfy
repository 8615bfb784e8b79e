/** Packets over a byte stream: PacketConnection.go and gwioutil.WriteAll. */
module PacketConnections {
  import opened Bytes
  import opened Packets

  /** A packet on the wire: the compressed bit and a payload. */
  datatype Frame = Frame(compressed: bool, payload: seq<Byte>)

  /** What a receiver accepts: a payload of 1 to _MAX_PAYLOAD_LENGTH bytes. */
  predicate Sendable(f: Frame)
  {
    1 <= |f.payload| <= MAX_PAYLOAD_LENGTH
  }

  function Word(f: Frame): (w: nat)
  {
    |f.payload| + if f.compressed then COMPRESSED_BIT else 0
  }

  /** data(): the length word and the payload. */
  function Data(f: Frame): seq<Byte>
  {
    ToLE(Word(f), 4) + f.payload
  }

  function Wire(fs: seq<Frame>): seq<Byte>
  {
    if |fs| == 0 then [] else Data(fs[0]) + Wire(fs[1..])
  }

  /** The bytes determine the frames: nothing else could have been sent. */
  lemma {:induction false} DataUnique(f: Frame, g: Frame, rest: seq<Byte>, rest': seq<Byte>)
    requires Sendable(f) && Sendable(g) && Data(f) + rest == Data(g) + rest'
    ensures f == g && rest == rest'
  {
    WordOf(f);
    WordOf(g);
    var s := Data(f) + rest;
    assert s[..4] == ToLE(Word(f), 4) == ToLE(Word(g), 4);
    var n := |f.payload|;
    assert f.payload == s[4..4 + n] == g.payload;
    assert rest == s[4 + n..] == rest';
  }

  lemma WordOf(f: Frame)
    requires |f.payload| <= MAX_PAYLOAD_LENGTH
    ensures LE(ToLE(Word(f), 4)) == Word(f)
    ensures Word(f) / COMPRESSED_BIT % 2 == (if f.compressed then 1 else 0) && Word(f) % COMPRESSED_BIT == |f.payload|
  {
    WordFits();
    assert Word(f) == |f.payload| + if f.compressed then COMPRESSED_BIT else 0;
    hide Pow256, Word;
    FromToLE(Word(f), 4);
  }

  /** The bytes on the wire: the payload length, least byte first, with the top bit for compressed ones. */
  lemma DataBytes(f: Frame)
    requires |f.payload| <= MAX_PAYLOAD_LENGTH
    ensures |Data(f)| == 4 + |f.payload| && Data(f)[4..] == f.payload
    ensures
      var b0: int, b1: int, b2: int, b3: int := Data(f)[0], Data(f)[1], Data(f)[2], Data(f)[3];
      (b3 >= 128 <==> f.compressed) && b0 + 0x100 * b1 + 0x1_0000 * b2 + 0x100_0000 * (b3 % 128) == |f.payload|
  {
    WordOf(f);
    var s := Data(f)[..4];
    assert s == ToLE(Word(f), 4);
    LE4(s);
    U32Digits(s[0], s[1], s[2], s[3]);
    TopBit(U24(s[0], s[1], s[2]), s[3]);
  }

  lemma TopBit(low: int, top: Byte)
    requires 0 <= low < 0x100_0000
    ensures
      var w := low + 0x100_0000 * top;
      w / COMPRESSED_BIT % 2 == top / 128 && w % COMPRESSED_BIT == low + 0x100_0000 * (top % 128)
  {
    assert top == 128 * (top / 128) + top % 128;
    assert low + 0x100_0000 * top == COMPRESSED_BIT * (top / 128) + (low + 0x100_0000 * (top % 128));
  }

  lemma WordFits()
    ensures Pow256(4) == 2 * COMPRESSED_BIT
  {
    assert Pow256(4) == 256 * (256 * (256 * (256 * Pow256(0))));
  }

  // ---------- Sending ----------

  datatype IOError = NoError | TimedOut | Failed

  /** How a call ends: it returns without or with an error, or it does not return. */
  datatype Ending = Done | Error | Endless

  /**
    A connection, plain (NetConnection) or buffered (BufferedConnection). A plain one accepts some
    bytes at a time; `stalls` bounds how often it accepts none without failing. A buffered one passes
    on what it accepted when it likes, at the latest in Flush; its buffered writer keeps the first
    error it meets, time-outs included, in `err`. A connection that failed stays so.
  */
  class Sink {
    const buffered: bool
    /** What the network accepted, and what waits in the buffered writer. */
    var sent: seq<Byte>
    var buffer: seq<Byte>
    var stalls: nat
    var err: IOError

    ghost predicate Valid()
      reads this
    {
      buffered || (buffer == [] && err != TimedOut)
    }

    ghost function Taken(): seq<Byte>
      reads this
    {
      sent + buffer
    }

    constructor (buffered: bool, stalls: nat)
      ensures Valid() && Taken() == sent == [] && err == NoError && this.buffered == buffered && this.stalls == stalls
    {
      this.buffered, sent, buffer, this.stalls, err := buffered, [], [], stalls, NoError;
    }

    /**
      Write. A plain connection takes a prefix of `data`, with or without a time-out error; or it
      fails. A buffered one takes everything, or gets an error which it keeps.
    */
    method Write(data: seq<Byte>) returns (n: nat, e: IOError)
      requires Valid() && |data| > 0
      modifies this
      ensures Valid() && n <= |data| && Taken() == old(Taken()) + data[..n] && old(sent) <= sent
      ensures old(err) != NoError ==> n == 0 && e == err == old(err) && sent == old(sent) && buffer == old(buffer)
      ensures buffered ==> e == err && (e == NoError ==> n == |data|)
      ensures !buffered ==> (e == Failed <==> err == Failed)
      ensures stalls <= old(stalls) && (!buffered && n == 0 && e != Failed ==> stalls < old(stalls))
    {
      if err != NoError {
        assert sent + buffer == sent + buffer + data[..0];
        return 0, err;
      }
      n :| 0 <= n <= |data|;
      e :| (n == 0 && !buffered && e != Failed ==> stalls > 0) && (n < |data| && buffered ==> e != NoError);
      if n == 0 && !buffered && e != Failed {
        stalls := stalls - 1;
      }
      err := if buffered || e == Failed then e else NoError;
      var taken := buffer + data[..n];
      Three(sent, buffer, data[..n]);
      PassOn(taken, if buffered then 0 else |taken|);
    }

    /** The buffered writer holds `taken`, and passes on some of it, but at least `min` bytes. */
    method PassOn(taken: seq<Byte>, min: nat)
      requires min <= |taken|
      modifies this`sent, this`buffer
      ensures sent + buffer == old(sent) + taken && old(sent) <= sent && |buffer| <= |taken| - min
    {
      var k :| min <= k <= |taken|;
      Three(sent, taken[..k], taken[k..]);
      assert taken == taken[..k] + taken[k..];
      sent, buffer := sent + taken[..k], taken[k..];
    }

    /** Flush of the connection: nothing for a plain one; the buffered writer passes on everything, or has an error. */
    method FlushConnection() returns (e: IOError)
      requires Valid()
      modifies this
      ensures Valid() && Taken() == old(Taken()) && old(sent) <= sent
      ensures !buffered ==> e == NoError && err == old(err)
      ensures buffered ==> e == err && (e == NoError ==> buffer == [])
      ensures old(err) != NoError ==> err == old(err) && sent == old(sent)
    {
      if !buffered {
        return NoError;
      }
      if err == NoError {
        var met: IOError :| true;
        err := met;
        PassOn(buffer, if err == NoError then |buffer| else 0);
      }
      e := err;
    }

    /**
      gwioutil.WriteAll: writes again what was not accepted, until all of it was, or the connection
      fails. On a buffered connection a time-out comes back in every further round, which takes
      nothing: the call does not return.
    */
    method WriteAll(data: seq<Byte>) returns (r: Ending)
      requires Valid()
      modifies this
      ensures Valid() && old(Taken()) <= Taken() <= old(Taken()) + data && old(sent) <= sent
      ensures r.Done? ==> Taken() == old(Taken()) + data
      ensures err == NoError ==> r.Done?
      ensures data != [] ==> (r.Error? <==> err == Failed)
      ensures r.Endless? ==> buffered && err == TimedOut
      ensures old(err) != NoError ==> err == old(err) && sent == old(sent) && buffer == old(buffer) && (data != [] ==> !r.Done?)
    {
      var rest, left := data, |data|;
      assert old(Taken()) + data[..0] == old(Taken());
      while left > 0
        invariant Valid() && left == |rest| <= |data| && rest == data[|data| - left..] && old(sent) <= sent
        invariant Taken() == old(Taken()) + data[..|data| - left]
        invariant err == NoError || (buffered && err == TimedOut && left == 0 && old(err) == NoError) || err == old(err)
        invariant old(err) != NoError ==> left == |data| && err == old(err) && sent == old(sent) && buffer == old(buffer)
        invariant left == 0 && data != [] ==> err != Failed
        decreases left, stalls
      {
        var n, e := Write(rest);
        Three(old(Taken()), data[..|data| - left], rest[..n]);
        assert data[..|data| - left] + rest[..n] == data[..|data| - (left - n)];
        if n == left && e == NoError {
          assert data[..|data|] == data;
          return Done;
        }
        if n > 0 {
          rest := rest[n..];
          left := left - n;
        }
        if e != NoError && e != TimedOut {
          return Error;
        }
        if buffered && e == TimedOut && left > 0 {
          return Endless;
        }
      }
      assert data[..|data|] == data;
      r := Done;
    }

    /**
      Flush: writes the pending packets in order, and flushes the connection. Of several packets the
      errors of single writes are not looked at: a buffered connection reports them at the end, a
      plain one does not. What was accepted is a beginning of the wire form in each case.
    */
    method Flush(pending: seq<Frame>) returns (r: Ending)
      requires Valid()
      modifies this
      ensures Valid() && old(Taken()) <= Taken() <= old(Taken()) + Wire(pending)
      ensures err == NoError ==> Taken() == old(Taken()) + Wire(pending) && (pending != [] ==> buffer == [])
      ensures r.Done? <==> pending == [] || err == NoError || (!buffered && |pending| > 1)
      ensures old(err) != NoError ==> err == old(err) && sent == old(sent)
      ensures buffered && pending != [] && old(err) != NoError ==> r == if err == Failed then Error else Endless
      ensures r.Endless? ==> buffered && err == TimedOut
    {
      if |pending| == 0 {
        assert Taken() + [] == Taken();
        return Done;
      }
      if |pending| == 1 {
        assert Wire(pending) == Data(pending[0]) + Wire([]) == Data(pending[0]);
        r := WriteAll(Data(pending[0]));
      } else {
        r := WriteEach(pending);
      }
      if r.Done? {
        var e := FlushConnection();
        r := if e == NoError then Done else Error;
      }
    }

    /** The loop over several packets: the error of a write is ignored; only one that does not return matters. */
    method WriteEach(pending: seq<Frame>) returns (r: Ending)
      requires Valid() && |pending| > 1
      modifies this
      ensures Valid() && old(Taken()) <= Taken() <= old(Taken()) + Wire(pending) && !r.Error?
      ensures err == NoError ==> r.Done? && Taken() == old(Taken()) + Wire(pending)
      ensures old(err) != NoError ==> err == old(err) && sent == old(sent) && buffer == old(buffer)
      ensures r.Endless? ==> buffered && err == TimedOut
      ensures old(err) == TimedOut ==> r.Endless?
    {
      hide Wire, Data;
      WireAll(pending);
      assert old(Taken()) + [] == old(Taken());
      for i := 0 to |pending|
        invariant Valid() && old(Taken()) <= Taken() <= old(Taken()) + Wire(pending[..i])
        invariant err == NoError ==> Taken() == old(Taken()) + Wire(pending[..i])
        invariant old(err) != NoError ==> err == old(err) && sent == old(sent) && buffer == old(buffer)
        invariant old(err) == TimedOut ==> i == 0
      {
        WireStep(pending, i, old(Taken()));
        DataSome(pending[i]);
        var e := WriteAll(Data(pending[i]));
        if e.Endless? {
          return Endless;
        }
      }
      r := Done;
    }
  }

  lemma Three(a: seq<Byte>, b: seq<Byte>, c: seq<Byte>)
    ensures a + (b + c) == a + b + c
  {
  }

  /** The packets so far, and one more, are the beginning of all of them. */
  lemma WireStep(fs: seq<Frame>, i: nat, taken: seq<Byte>)
    requires i < |fs|
    ensures Wire(fs[..i + 1]) == Wire(fs[..i]) + Data(fs[i])
    ensures taken + Wire(fs[..i]) + Data(fs[i]) == taken + Wire(fs[..i + 1])
    ensures Wire(fs[..i]) <= Wire(fs[..i + 1]) <= Wire(fs)
  {
    hide Wire, Data;
    WireNext(fs, i);
    WirePrefix(fs, i + 1);
    Three(taken, Wire(fs[..i]), Data(fs[i]));
    Beginning(Wire(fs[..i]), Data(fs[i]));
  }

  lemma WireNext(fs: seq<Frame>, i: nat)
    requires i < |fs|
    ensures Wire(fs[..i + 1]) == Wire(fs[..i]) + Data(fs[i])
  {
    hide Wire, Data;
    assert fs[..i + 1] == fs[..i] + [fs[i]];
    WireAppend(fs[..i], fs[i]);
  }

  lemma Beginning(a: seq<Byte>, b: seq<Byte>)
    ensures a <= a + b
  {
  }

  lemma {:induction false} WirePrefix(fs: seq<Frame>, k: nat)
    requires k <= |fs|
    ensures Wire(fs[..k]) <= Wire(fs)
    decreases |fs| - k
  {
    hide Wire, Data;
    if k == |fs| {
      assert fs[..k] == fs;
    } else {
      WireNext(fs, k);
      Beginning(Wire(fs[..k]), Data(fs[k]));
      WirePrefix(fs, k + 1);
    }
  }

  lemma DataSome(f: Frame)
    ensures Data(f) != []
  {
  }

  lemma WireAll(fs: seq<Frame>)
    ensures fs[..|fs|] == fs && Wire(fs[..0]) == []
  {
  }

  lemma {:induction false} WireAppend(fs: seq<Frame>, f: Frame)
    ensures Wire(fs + [f]) == Wire(fs) + Data(f)
  {
    if |fs| > 0 {
      WireAppend(fs[1..], f);
      assert (fs + [f])[1..] == fs[1..] + [f];
      assert Data(fs[0]) + (Wire(fs[1..]) + Data(f)) == Data(fs[0]) + Wire(fs[1..]) + Data(f);
    } else {
      assert Data(f) + Wire([]) == Data(f) == [] + Data(f);
      assert (fs + [f])[1..] == [];
    }
  }

  // ---------- Receiving ----------

  /** `NotYet` comes with the error of the read; without one it is errRecvAgain. */
  datatype RecvResult = NotYet(err: IOError) | Invalid | Received(frame: Frame)

  /** The unread bytes begin with a length word that no sender writes. */
  ghost predicate InvalidWord(unread: seq<Byte>)
  {
    |unread| >= 4 &&
    var n := LE(unread[..4]) % COMPRESSED_BIT;
    n == 0 || n > MAX_PAYLOAD_LENGTH
  }

  lemma WireValid(fs: seq<Frame>)
    requires forall f | f in fs :: Sendable(f)
    ensures !InvalidWord(Wire(fs)) && (fs == [] <==> Wire(fs) == [])
  {
    if fs != [] {
      assert Sendable(fs[0]);
      WordOf(fs[0]);
      assert Wire(fs)[..4] == ToLE(Word(fs[0]), 4);
    }
  }

  /**
    The receiving half of a connection; `stream` is what the network has not delivered yet, and
    `stalls` bounds how often a read delivers nothing of it. A network that is `broken` stays so.
  */
  class Receiver {
    var stream: seq<Byte>
    var stalls: nat
    var broken: bool
    var lenBuf: seq<Byte>
    var recvCompressed: bool
    var recvTotalPayloadLen: nat
    var recved: seq<Byte>

    /** The length word is complete exactly when a payload is being received. */
    ghost predicate Valid()
      reads this
    {
      && |lenBuf| <= 4
      && (|lenBuf| < 4 ==> recved == [] && !recvCompressed)
      && (|lenBuf| == 4 ==>
            && lenBuf == ToLE(recvTotalPayloadLen + if recvCompressed then COMPRESSED_BIT else 0, 4)
            && 1 <= recvTotalPayloadLen <= MAX_PAYLOAD_LENGTH && |recved| < recvTotalPayloadLen)
    }

    /** Every byte that has not been returned in a packet, received or not. */
    ghost function Unread(): seq<Byte>
      reads this
    {
      lenBuf + recved + stream
    }

    constructor (stream: seq<Byte>, stalls: nat)
      ensures Valid() && Unread() == stream == this.stream && this.stalls == stalls && !broken
    {
      this.stream, this.stalls, broken := stream, stalls, false;
      lenBuf, recvCompressed, recvTotalPayloadLen, recved := [], false, 0, [];
      new;
      assert [] + [] + stream == stream;
    }

    /** What the network still holds, or its stalls, went down since there were `n` bytes and `k` stalls; or it broke. */
    ghost predicate Progress(n: nat, k: nat)
      reads this
    {
      |stream| <= n && stalls <= k && (n > 0 ==> |stream| < n || stalls < k || broken)
    }

    /**
      conn.Read: any number of the available bytes, up to `max`, with or without an error;
      delivering none of them, without failing, is a stall.
    */
    method Read(max: nat) returns (b: seq<Byte>, e: IOError)
      requires max > 0
      modifies this`stream, this`stalls, this`broken
      ensures |b| <= max && old(stream) == b + stream && Progress(old(|stream|), old(stalls))
      ensures (e == Failed <==> broken) && (old(broken) ==> broken && b == [])
    {
      e :| broken ==> e == Failed;
      var n: nat :| n <= max && n <= |stream| && (broken ==> n == 0) && (n > 0 || stalls > 0 || |stream| == 0 || e == Failed);
      if n == 0 && stalls > 0 && e != Failed {
        stalls := stalls - 1;
      }
      broken := e == Failed;
      b := stream[..n];
      stream := stream[n..];
    }

    /** The bytes taken so far are not enough for the first frame that is not returned yet. */
    lemma HeldBack(fs: seq<Frame>)
      requires Valid() && Unread() == Wire(fs) && fs != [] && forall f | f in fs :: Sendable(f)
      ensures |lenBuf| + |recved| < |Data(fs[0])| && stream != []
    {
      var f := fs[0];
      assert Sendable(f);
      WordOf(f);
      if |lenBuf| == 4 {
        var word := recvTotalPayloadLen + if recvCompressed then COMPRESSED_BIT else 0;
        assert lenBuf == Unread()[..4] == Wire(fs)[..4] == ToLE(Word(f), 4);
        WordOf(Frame(recvCompressed, seq(recvTotalPayloadLen, i => 0)));
        assert LE(ToLE(word, 4)) == word;
      }
    }

    method ResetRecvStates()
      modifies this`lenBuf, this`recvCompressed, this`recvTotalPayloadLen, this`recved
      ensures Valid() && lenBuf == [] && recved == []
    {
      lenBuf, recvCompressed, recvTotalPayloadLen, recved := [], false, 0, [];
    }

    /** The first half of RecvPacket: completes the length word, if enough is delivered. */
    method RecvLength() returns (stop: Option<RecvResult>)
      requires Valid() && |lenBuf| < 4
      modifies this
      ensures Valid() && Progress(old(|stream|), old(stalls)) && stream == old(stream)[old(|stream|) - |stream|..]
      ensures stop.None? ==> |lenBuf| == 4 && Unread() == old(Unread())
      ensures stop.Some? && stop.value.NotYet? ==> Unread() == old(Unread()) && (stop.value.err == Failed <==> broken)
      ensures stop == Some(Invalid) ==> InvalidWord(old(Unread()))
      ensures stop.Some? ==> stop.value.NotYet? || stop.value.Invalid?
    {
      ghost var unread := Unread();
      var b, e := Read(4 - |lenBuf|);
      lenBuf := lenBuf + b;
      assert lenBuf + recved + stream == unread;
      if |lenBuf| < 4 {
        return Some(NotYet(e));
      }
      var word := LE(lenBuf);
      assert unread[..4] == lenBuf;
      FromLE(lenBuf);
      SplitWord(word);
      hide LE, ToLE;
      recvTotalPayloadLen := word;
      if word / COMPRESSED_BIT % 2 == 1 {
        recvTotalPayloadLen := word % COMPRESSED_BIT;
        recvCompressed := true;
      }
      if recvTotalPayloadLen == 0 || recvTotalPayloadLen > MAX_PAYLOAD_LENGTH {
        ResetRecvStates();
        return Some(Invalid);
      }
      return None;
    }

    /** The second half: takes more of the payload, and returns the packet when it is complete. */
    method RecvPayload() returns (r: RecvResult)
      requires Valid() && |lenBuf| == 4
      modifies this
      ensures Valid() && !r.Invalid?
      ensures Progress(old(|stream|), old(stalls)) && stream == old(stream)[old(|stream|) - |stream|..]
      ensures r.NotYet? ==> Unread() == old(Unread()) && (r.err == Failed <==> broken)
      ensures r.Received? ==> Sendable(r.frame) && old(Unread()) == Data(r.frame) + Unread()
    {
      ghost var unread := Unread();
      var b, e := Read(recvTotalPayloadLen - |recved|);
      recved := recved + b;
      assert lenBuf + recved + stream == unread;
      if |recved| == recvTotalPayloadLen {
        var frame := Frame(recvCompressed, recved);
        assert lenBuf + recved == Data(frame);
        ResetRecvStates();
        assert [] + [] + stream == stream;
        return Received(frame);
      }
      return NotYet(e);
    }

    /**
      RecvPacket: one or two reads of whatever the network delivers. Either what was delivered is
      kept and the caller tries again, or the first unread frame is returned and taken off, or its
      length word is invalid. Each call takes something from the network, unless that stalls or is
      broken, which is reported exactly then.
    */
    method RecvPacket() returns (r: RecvResult)
      requires Valid()
      modifies this
      ensures Valid()
      ensures Progress(old(|stream|), old(stalls)) && stream == old(stream)[old(|stream|) - |stream|..]
      ensures r.NotYet? ==> Unread() == old(Unread()) && (r.err == Failed <==> broken)
      ensures r.Received? ==> Sendable(r.frame) && old(Unread()) == Data(r.frame) + Unread()
      ensures r.Invalid? ==> InvalidWord(old(Unread()))
    {
      if |lenBuf| < 4 {
        var stop := RecvLength();
        if stop.Some? {
          return stop.value;
        }
      }
      r := RecvPayload();
    }

    /**
      Fragmentation independence: as long as the unread bytes are the wire form of sendable
      frames, a call returns the first of them and leaves the others, or leaves all of them.
    */
    method RecvNext(ghost fs: seq<Frame>) returns (r: RecvResult)
      requires Valid() && Unread() == Wire(fs) && forall f | f in fs :: Sendable(f)
      modifies this
      ensures Valid() && !r.Invalid? && Progress(old(|stream|), old(stalls))
      ensures r.NotYet? ==> Unread() == Wire(fs) && (r.err == Failed <==> broken) && (fs != [] ==> |lenBuf| + |recved| < |Data(fs[0])|)
      ensures r.Received? ==> fs != [] && r.frame == fs[0] && Unread() == Wire(fs[1..])
    {
      WireValid(fs);
      r := RecvPacket();
      if r.Received? {
        DataUnique(r.frame, fs[0], Unread(), Wire(fs[1..]));
      } else if fs != [] {
        HeldBack(fs);
      }
    }
  }

  /** A four-byte word is the little-endian form of its value, with or without the compressed bit. */
  lemma FromLE(s: seq<Byte>)
    requires |s| == 4
    ensures s == ToLE(LE(s), 4) && LE(s) < 2 * COMPRESSED_BIT
  {
    LE4(s);
    LE3(s[1..]);
    LE2(s[2..]);
    LE1(s[3..]);
    assert s[1..][1..] == s[2..] && s[2..][1..] == s[3..] && s[3..][1..] == [];
    ToLEOfLE(s);
  }

  lemma {:induction false} ToLEOfLE(s: seq<Byte>)
    ensures ToLE(LE(s), |s|) == s
  {
    if |s| > 0 {
      var rest := LE(s[1..]);
      LowByte(s[0], rest);
      assert LE(s) == s[0] + 256 * rest;
      ToLEOfLE(s[1..]);
      hide LE;
      assert ToLE(s[0] + 256 * rest, |s|) == [s[0]] + ToLE(rest, |s| - 1);
      assert s == [s[0]] + s[1..];
    }
  }

  lemma LowByte(low: int, rest: nat)
    requires 0 <= low < 256
    ensures (low + 256 * rest) % 256 == low && (low + 256 * rest) / 256 == rest
  {
  }

  lemma SplitWord(word: nat)
    requires word < 2 * COMPRESSED_BIT
    ensures word / COMPRESSED_BIT % 2 == 1 ==> word == word % COMPRESSED_BIT + COMPRESSED_BIT
    ensures word / COMPRESSED_BIT % 2 != 1 ==> word == word % COMPRESSED_BIT
  {
  }

  /** Any number of calls returns the first frames sent, and all of them when everything was delivered. */
  method Poll(r: Receiver, fs: seq<Frame>, calls: nat) returns (got: seq<Frame>)
    requires r.Valid() && r.Unread() == Wire(fs) && forall f | f in fs :: Sendable(f)
    modifies r
    ensures r.Valid() && got <= fs && r.Unread() == Wire(fs[|got|..])
    ensures r.stream == [] ==> got == fs
  {
    got := [];
    for i := 0 to calls
      invariant r.Valid() && got <= fs && r.Unread() == Wire(fs[|got|..])
    {
      var res := r.RecvNext(fs[|got|..]);
      if res.Received? {
        assert fs[|got|..][1..] == fs[|got| + 1..];
        got := got + [res.frame];
      }
    }
    if got != fs {
      r.HeldBack(fs[|got|..]);
    }
  }

  /**
    A receiver that is called until `n` frames came gets just the first `n` sent, in order, unless
    the network breaks; then it got the first ones, and the others are still to be read.
  */
  method ReceiveAll(r: Receiver, n: nat, ghost fs: seq<Frame>) returns (got: seq<Frame>)
    requires r.Valid() && r.Unread() == Wire(fs) && n <= |fs| && forall f | f in fs :: Sendable(f)
    modifies r
    ensures r.Valid() && |got| <= n && got == fs[..|got|] && r.Unread() == Wire(fs[|got|..])
    ensures |got| == n || r.broken
  {
    got := [];
    while |got| < n
      invariant |got| <= n && r.Valid() && got == fs[..|got|] && r.Unread() == Wire(fs[|got|..])
      decreases n - |got|, |r.stream|, r.stalls
    {
      r.HeldBack(fs[|got|..]);
      var res := r.RecvNext(fs[|got|..]);
      if res == NotYet(Failed) {
        return;
      }
      if res.Received? {
        assert fs[|got|..][1..] == fs[|got| + 1..];
        got := got + [res.frame];
      }
    }
  }
}
