/**
  The reference counts of packets in the dispatcher: who holds a packet, and that a packet goes
  back to the pool only when nobody does (Packet.go, PacketConnection.go, DispatcherService.go).
*/
module RefCounts {
  type Pkt = nat

  /** What can hold packets; a `Slice` is a local variable of a running function. */
  datatype Holder =
    | Message
    | EntityQueue(eid: nat)
    | GameQueue(gameid: nat)
    | SendQueue(conn: nat)
    | SyncCache(gameid: nat)
    | Slice(depth: nat)

  type Queues = map<Holder, seq<Pkt>>

  function QueueOf(queues: Queues, h: Holder): seq<Pkt>
  {
    if h in queues then queues[h] else []
  }

  /** How often a packet is held. */
  ghost function Held(queues: Queues, p: Pkt): nat
  {
    if queues == map[] then 0 else
    var h :| h in queues;
    multiset(queues[h])[p] + Held(queues - {h}, p)
  }

  /** The references held in all queues are those of one queue and of the others. */
  lemma {:induction false} HeldOf(queues: Queues, h: Holder, p: Pkt)
    requires h in queues
    ensures Held(queues, p) == multiset(queues[h])[p] + Held(queues - {h}, p)
    decreases |queues|
  {
    var k :| k in queues && Held(queues, p) == multiset(queues[k])[p] + Held(queues - {k}, p);
    if k != h {
      HeldOf(queues - {k}, h, p);
      HeldOf(queues - {h}, k, p);
      assert queues - {k} - {h} == queues - {h} - {k};
    }
  }

  lemma HeldUpdate(queues: Queues, h: Holder, s: seq<Pkt>, p: Pkt)
    ensures Held(queues[h := s], p) == Held(queues, p) - multiset(QueueOf(queues, h))[p] + multiset(s)[p]
    ensures multiset(QueueOf(queues, h))[p] <= Held(queues, p)
  {
    var queues' := queues[h := s];
    HeldOf(queues', h, p);
    assert queues' - {h} == queues - {h};
    if h in queues {
      HeldOf(queues, h, p);
    } else {
      assert queues - {h} == queues;
    }
  }

  lemma Occurs(s: seq<Pkt>, p: Pkt, q: Pkt)
    ensures multiset(s + [p])[q] == multiset(s)[q] + if q == p then 1 else 0
    ensures s != [] ==> multiset(s)[q] == multiset(s[1..])[q] + if q == s[0] then 1 else 0
    ensures p in s <==> multiset(s)[p] > 0
  {
    if s != [] {
      assert s == [s[0]] + s[1..];
    }
  }

  function CountOf(refcount: map<Pkt, int>, p: Pkt): int
  {
    if p in refcount then refcount[p] else 0
  }

  /**
    Each packet's count is the number of references to it, and those that were dropped with the
    queue of a deleted entity entry.
  */
  ghost predicate Balanced(refcount: map<Pkt, int>, queues: Queues, lost: multiset<Pkt>)
  {
    forall p: Pkt :: CountOf(refcount, p) == Held(queues, p) + lost[p]
  }

  /** A packet in the pool is held by nobody, and every packet that is held may still be used. */
  lemma HeldIsLive(refcount: map<Pkt, int>, queues: Queues, lost: multiset<Pkt>, h: Holder, p: Pkt)
    requires Balanced(refcount, queues, lost)
    ensures p in QueueOf(queues, h) ==> CountOf(refcount, p) > 0
    ensures CountOf(refcount, p) == 0 ==> p !in QueueOf(queues, h)
    ensures CountOf(refcount, p) >= 0
  {
    HeldUpdate(queues, h, [], p);
    Occurs(QueueOf(queues, h), p, p);
  }

  /** Without a deleted entry, the last release of a packet is the release of its last reference. */
  lemma RecycledExactly(refcount: map<Pkt, int>, queues: Queues, lost: multiset<Pkt>, p: Pkt)
    requires Balanced(refcount, queues, lost) && p !in lost
    ensures CountOf(refcount, p) == 0 <==> forall h :: p !in QueueOf(queues, h)
  {
    if CountOf(refcount, p) == 0 {
      forall h
        ensures p !in QueueOf(queues, h)
      {
        HeldIsLive(refcount, queues, lost, h, p);
      }
    } else {
      var h := HolderOf(queues, p);
    }
  }

  lemma {:induction false} HolderOf(queues: Queues, p: Pkt) returns (h: Holder)
    requires Held(queues, p) > 0
    ensures p in QueueOf(queues, h)
    decreases |queues|
  {
    var k :| k in queues && Held(queues, p) == multiset(queues[k])[p] + Held(queues - {k}, p);
    if p in queues[k] {
      h := k;
    } else {
      h := HolderOf(queues - {k}, p);
    }
  }

  /** One more reference to a packet, and one more in a queue. */
  lemma OneMore(refcount: map<Pkt, int>, queues: Queues, lost: multiset<Pkt>, h: Holder, p: Pkt)
    requires Balanced(refcount, queues, lost)
    ensures Balanced(refcount[p := CountOf(refcount, p) + 1], queues[h := QueueOf(queues, h) + [p]], lost)
  {
    hide Held;
    forall q: Pkt
      ensures CountOf(refcount[p := CountOf(refcount, p) + 1], q) == Held(queues[h := QueueOf(queues, h) + [p]], q) + lost[q]
    {
      HeldUpdate(queues, h, QueueOf(queues, h) + [p], q);
      Occurs(QueueOf(queues, h), p, q);
      assert CountOf(refcount, q) == Held(queues, q) + lost[q];
    }
  }

  /** One reference less, and one less in a queue. */
  lemma OneLess(refcount: map<Pkt, int>, queues: Queues, lost: multiset<Pkt>, h: Holder)
    requires Balanced(refcount, queues, lost) && QueueOf(queues, h) != []
    ensures
      var q := QueueOf(queues, h);
      Balanced(refcount[q[0] := CountOf(refcount, q[0]) - 1], queues[h := q[1..]], lost)
  {
    hide Held;
    var s := QueueOf(queues, h);
    forall q: Pkt
      ensures CountOf(refcount[s[0] := CountOf(refcount, s[0]) - 1], q) == Held(queues[h := s[1..]], q) + lost[q]
    {
      HeldUpdate(queues, h, s[1..], q);
      Occurs(s, s[0], q);
      assert CountOf(refcount, q) == Held(queues, q) + lost[q];
    }
  }

  /** A queue that changes hands, and one whose references are given up. */
  lemma QueueMoves(refcount: map<Pkt, int>, queues: Queues, lost: multiset<Pkt>, h: Holder, local: Holder)
    requires Balanced(refcount, queues, lost)
    ensures QueueOf(queues, local) == [] && h != local ==>
              Balanced(refcount, queues[local := QueueOf(queues, h)][h := []], lost)
    ensures Balanced(refcount, queues[h := []], lost + multiset(QueueOf(queues, h)))
  {
    hide Held;
    var s := QueueOf(queues, h);
    var given: multiset<Pkt> := lost + multiset(s);
    forall q: Pkt
      ensures CountOf(refcount, q) == Held(queues[h := []], q) + given[q]
      ensures QueueOf(queues, local) == [] && h != local ==>
                CountOf(refcount, q) == Held(queues[local := s][h := []], q) + lost[q]
    {
      assert CountOf(refcount, q) == Held(queues, q) + lost[q];
      HeldUpdate(queues, h, [], q);
      HeldUpdate(queues, local, s, q);
      HeldUpdate(queues[local := s], h, [], q);
    }
  }

  lemma NobodyHolds(refcount: map<Pkt, int>, queues: Queues, lost: multiset<Pkt>, p: Pkt)
    requires Balanced(refcount, queues, lost)
    ensures CountOf(refcount, p) == 0 ==> forall k :: p !in QueueOf(queues, k)
  {
    forall k
      ensures CountOf(refcount, p) == 0 ==> p !in QueueOf(queues, k)
    {
      HeldIsLive(refcount, queues, lost, k, p);
    }
  }

  /** The pool always has a packet to give out: one that is used again, or a new one. */
  lemma FreePacket(refcount: map<Pkt, int>) returns (p: Pkt)
    ensures CountOf(refcount, p) == 0
  {
    p := Above(refcount.Keys);
  }

  lemma {:induction false} Above(ps: set<Pkt>) returns (p: Pkt)
    ensures p !in ps && forall q | q in ps :: q < p
  {
    if ps == {} {
      p := 0;
    } else {
      var q :| q in ps;
      var r := Above(ps - {q});
      p := if r > q then r else q + 1;
      assert forall x | x in ps :: x == q || x in ps - {q};
    }
  }

  class PacketCounts {
    var refcount: map<Pkt, int>
    var queues: Queues
    ghost var lost: multiset<Pkt>

    ghost predicate Valid()
      reads this
    {
      Balanced(refcount, queues, lost)
    }

    function Q(h: Holder): seq<Pkt>
      reads this`queues
    {
      QueueOf(queues, h)
    }

    function Count(p: Pkt): int
      reads this`refcount
    {
      CountOf(refcount, p)
    }

    constructor ()
      ensures Valid() && queues == map[] && lost == multiset{}
    {
      refcount, queues, lost := map[], map[], multiset{};
    }

    /** NewPacket: whatever packet the pool gives out, nobody holds it. */
    method NewPacket(h: Holder) returns (p: Pkt)
      requires Valid()
      modifies this
      ensures Valid() && queues == old(queues)[h := old(Q(h)) + [p]] && lost == old(lost)
      ensures old(Count(p)) == 0 && Count(p) == 1 && forall k :: p !in QueueOf(old(queues), k)
    {
      hide Balanced, Held;
      ghost var free := FreePacket(refcount);
      p :| CountOf(refcount, p) == 0;
      NobodyHolds(refcount, queues, lost, p);
      OneMore(refcount, queues, lost, h, p);
      assert forall k :: Q(k) == QueueOf(queues, k);
      refcount, queues := refcount[p := 1], queues[h := Q(h) + [p]];
    }

    /** AddRefCount and append, for a packet that somebody holds; SendPacket refuses any other. */
    method Share(p: Pkt, h: Holder, from: Holder)
      requires Valid() && p in Q(from)
      modifies this
      ensures Valid() && queues == old(queues)[h := old(Q(h)) + [p]] && lost == old(lost)
      ensures old(Count(p)) > 0 && refcount == old(refcount)[p := old(Count(p)) + 1]
    {
      hide Balanced, Held;
      HeldIsLive(refcount, queues, lost, from, p);
      OneMore(refcount, queues, lost, h, p);
      refcount, queues := refcount[p := refcount[p] + 1], queues[h := Q(h) + [p]];
    }

    /** The holder lets go of its first packet: the count stays at least zero, and at zero nobody holds it. */
    method Release(h: Holder)
      requires Valid() && Q(h) != []
      modifies this
      ensures Valid() && queues == old(queues)[h := old(Q(h))[1..]] && lost == old(lost)
      ensures var p := old(Q(h))[0];
        Count(p) >= 0 && refcount == old(refcount)[p := old(Count(Q(h)[0])) - 1] && (Count(p) == 0 ==> forall k :: p !in Q(k))
    {
      hide Balanced, Held;
      var p := Q(h)[0];
      HeldIsLive(refcount, queues, lost, h, p);
      OneLess(refcount, queues, lost, h);
      refcount, queues := refcount[p := refcount[p] - 1], queues[h := Q(h)[1..]];
      HeldIsLive(refcount, queues, lost, h, p);
      NobodyHolds(refcount, queues, lost, p);
      assert forall k :: Q(k) == QueueOf(queues, k);
    }

    /** A queue is taken over by a local variable: `pending, queue = queue, nil`. */
    method Take(h: Holder, local: Holder)
      requires Valid() && Q(local) == [] && h != local
      modifies this
      ensures Valid() && queues == old(queues)[local := old(Q(h))][h := []] && lost == old(lost) && refcount == old(refcount)
    {
      hide Balanced;
      QueueMoves(refcount, queues, lost, h, local);
      queues := queues[local := Q(h)][h := []];
    }

    /** The references of a queue are forgotten with the object that has it: they are never given back. */
    method Forget(h: Holder)
      requires Valid()
      modifies this
      ensures Valid() && queues == old(queues)[h := []] && lost == old(lost) + multiset(old(Q(h))) && refcount == old(refcount)
    {
      hide Balanced;
      QueueMoves(refcount, queues, lost, h, h);
      lost := lost + multiset(Q(h));
      queues := queues[h := []];
    }

    /** Flush of a connection gives back one reference for each packet it had pending. */
    method Flush(conn: nat)
      requires Valid() && Q(Slice(0)) == []
      modifies this
      ensures Valid() && lost == old(lost) && Q(SendQueue(conn)) == []
      ensures forall h | h != SendQueue(conn) :: Q(h) == old(Q(h))
      ensures forall p: Pkt :: Count(p) == old(Count(p)) - multiset(old(Q(SendQueue(conn))))[p]
    {
      hide Balanced, Held;
      Take(SendQueue(conn), Slice(0));
      while Q(Slice(0)) != []
        invariant Valid() && lost == old(lost) && Q(SendQueue(conn)) == []
        invariant forall h | h != SendQueue(conn) && h != Slice(0) :: Q(h) == old(Q(h))
        invariant forall p: Pkt :: Count(p) - multiset(Q(Slice(0)))[p] == old(Count(p)) - multiset(old(Q(SendQueue(conn))))[p]
        decreases |Q(Slice(0))|
      {
        ghost var s := Q(Slice(0));
        ghost var before := refcount;
        Release(Slice(0));
        forall p: Pkt
          ensures Count(p) - multiset(Q(Slice(0)))[p] == CountOf(before, p) - multiset(s)[p]
        {
          Occurs(s, s[0], p);
        }
      }
    }
  }
}
