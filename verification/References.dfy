/**
  What dispatching does to the references that the dispatcher's queues hold: nothing is lost but
  the queues of entity entries that go, and each queue stays as long as the tables say.
*/
module References {
  import opened Migration
  import opened DispatcherState
  import opened RefCounts

  // ---------- References lost with deleted entries ----------

  /** How often a packet waits in the queues of the entities `es`. */
  ghost function Waiting(queues: Queues, es: set<EntityId>, p: Pkt): nat
  {
    if es == {} then 0 else
    var e :| e in es;
    multiset(QueueOf(queues, EntityQueue(e)))[p] + Waiting(queues, es - {e}, p)
  }

  lemma {:induction false} WaitingOf(queues: Queues, es: set<EntityId>, e: EntityId, p: Pkt)
    requires e in es
    ensures Waiting(queues, es, p) == multiset(QueueOf(queues, EntityQueue(e)))[p] + Waiting(queues, es - {e}, p)
    decreases |es|
  {
    var k :| k in es && Waiting(queues, es, p) == multiset(QueueOf(queues, EntityQueue(k)))[p] + Waiting(queues, es - {k}, p);
    if k != e {
      WaitingOf(queues, es - {k}, e, p);
      WaitingOf(queues, es - {e}, k, p);
      assert es - {k} - {e} == es - {e} - {k};
    }
  }

  lemma {:induction false} WaitingUnion(queues: Queues, a: set<EntityId>, b: set<EntityId>, p: Pkt)
    requires a !! b
    ensures Waiting(queues, a + b, p) == Waiting(queues, a, p) + Waiting(queues, b, p)
    decreases |a|
  {
    if a == {} {
      assert a + b == b;
    } else {
      var e :| e in a;
      WaitingOf(queues, a, e, p);
      WaitingOf(queues, a + b, e, p);
      assert a + b - {e} == (a - {e}) + b;
      WaitingUnion(queues, a - {e}, b, p);
    }
  }

  lemma {:induction false} WaitingSame(q0: Queues, q1: Queues, es: set<EntityId>, p: Pkt)
    requires forall e | e in es :: QueueOf(q1, EntityQueue(e)) == QueueOf(q0, EntityQueue(e))
    ensures Waiting(q1, es, p) == Waiting(q0, es, p)
    decreases |es|
  {
    if es != {} {
      var e :| e in es;
      WaitingOf(q0, es, e, p);
      WaitingOf(q1, es, e, p);
      WaitingSame(q0, q1, es - {e}, p);
    }
  }

  /** The references in the queues, the entities that have entries, and the references lost so far. */
  datatype Refs = Refs(queues: Queues, eids: set<EntityId>, lost: multiset<Pkt>)

  /** What dispatching leaves alone: the message, cached packets, and the slices of functions on the way. */
  predicate Fixed(h: Holder, depth: nat)
  {
    h.Message? || h.SyncCache? || (h.Slice? && h.depth < depth)
  }

  /**
    What dispatching does to the entity queues: those of the entries that go are gone, their
    references lost and no others; all others are as they were.
  */
  ghost predicate Moved(r0: Refs, r1: Refs, depth: nat)
  {
    && r1.eids <= r0.eids
    && (forall h: Holder | Fixed(h, depth) :: QueueOf(r1.queues, h) == QueueOf(r0.queues, h))
    && (forall e: EntityId ::
          QueueOf(r1.queues, EntityQueue(e)) == if e in r0.eids - r1.eids then [] else QueueOf(r0.queues, EntityQueue(e)))
    && (forall p: Pkt :: r1.lost[p] == r0.lost[p] + Waiting(r0.queues, r0.eids - r1.eids, p))
  }

  lemma MovedNot(r0: Refs, r1: Refs, depth: nat)
    requires r1.eids == r0.eids && r1.lost == r0.lost
    requires forall h: Holder | Fixed(h, depth) || h.EntityQueue? :: QueueOf(r1.queues, h) == QueueOf(r0.queues, h)
    ensures Moved(r0, r1, depth)
  {
    assert r0.eids - r0.eids == {};
  }

  lemma MovedTrans(r0: Refs, r1: Refs, r2: Refs, d0: nat, d1: nat)
    requires Moved(r0, r1, d0) && Moved(r1, r2, d1) && d0 <= d1
    ensures Moved(r0, r2, d0)
  {
    hide Waiting;
    forall p: Pkt
      ensures r2.lost[p] == r0.lost[p] + Waiting(r0.queues, r0.eids - r2.eids, p)
    {
      assert r0.eids - r2.eids == (r0.eids - r1.eids) + (r1.eids - r2.eids);
      WaitingUnion(r0.queues, r0.eids - r1.eids, r1.eids - r2.eids, p);
      WaitingSame(r0.queues, r1.queues, r1.eids - r2.eids, p);
    }
    forall h: Holder | Fixed(h, d0)
      ensures QueueOf(r2.queues, h) == QueueOf(r0.queues, h)
    {
      assert Fixed(h, d1);
    }
  }

  /** One entry goes, with its queue. */
  lemma MovedOne(r: Refs, e: EntityId, depth: nat)
    requires e in r.eids
    ensures Moved(r, Refs(r.queues[EntityQueue(e) := []], r.eids - {e}, r.lost + multiset(QueueOf(r.queues, EntityQueue(e)))), depth)
  {
    hide Waiting;
    assert r.eids - (r.eids - {e}) == {e};
    forall p: Pkt
      ensures (r.lost + multiset(QueueOf(r.queues, EntityQueue(e))))[p] == r.lost[p] + Waiting(r.queues, {e}, p)
    {
      WaitingOf(r.queues, {e}, e, p);
      WaitingNone(r.queues, {e} - {e}, p);
    }
  }

  lemma WaitingNone(queues: Queues, es: set<EntityId>, p: Pkt)
    ensures es == {} ==> Waiting(queues, es, p) == 0
  {
  }

  lemma FixedKept(r0: Refs, r1: Refs, depth: nat, h: Holder)
    requires Moved(r0, r1, depth) && Fixed(h, depth)
    ensures QueueOf(r1.queues, h) == QueueOf(r0.queues, h)
  {
  }

  lemma FixedAll(r0: Refs, r1: Refs, depth: nat)
    requires Moved(r0, r1, depth)
    ensures forall h: Holder | h.Message? || h.SyncCache? :: QueueOf(r1.queues, h) == QueueOf(r0.queues, h)
  {
    forall h: Holder | h.Message? || h.SyncCache?
      ensures QueueOf(r1.queues, h) == QueueOf(r0.queues, h)
    {
      assert Fixed(h, depth);
    }
  }

  // ---------- Tables and queues ----------

  /**
    Each queue of the tables has as many packets as the tables say, and no slice from this depth on
    is in use.
  */
  ghost predicate Fits(games: map<GameId, Gdi>, edis: map<EntityId, Edi>, queues: Queues, depth: nat)
  {
    && (forall g: GameId :: |QueueOf(queues, GameQueue(g))| == if g in games then |games[g].queue| else 0)
    && (forall e: EntityId :: |QueueOf(queues, EntityQueue(e))| == if e in edis then |edis[e].queue| else 0)
    && (forall k: nat | k >= depth :: QueueOf(queues, Slice(k)) == [])
  }

  /** Where a packet for game `g`, with the connection `conn`, goes. */
  function PutFor(queues: Queues, gdi: Gdi, g: GameId, conn: nat, p: Pkt): Queues
  {
    if !gdi.isBlocked && gdi.connected then queues[SendQueue(conn) := QueueOf(queues, SendQueue(conn)) + [p]]
    else if |gdi.queue| < GAME_PENDING_PACKET_QUEUE_MAX_LEN then queues[GameQueue(g) := QueueOf(queues, GameQueue(g)) + [p]]
    else queues
  }

  lemma PutCases(gdi: Gdi, queues: Queues, g: GameId, conn: nat, p: Pkt, pkt: Packet)
    ensures
      var direct, room := !gdi.isBlocked && gdi.connected, |gdi.queue| < GAME_PENDING_PACKET_QUEUE_MAX_LEN;
      && Placed(gdi, [], pkt).0 == (if !direct && room then gdi.(queue := gdi.queue + [pkt]) else gdi)
      && (direct ==> PutFor(queues, gdi, g, conn, p) == queues[SendQueue(conn) := QueueOf(queues, SendQueue(conn)) + [p]])
      && (!direct && room ==> PutFor(queues, gdi, g, conn, p) == queues[GameQueue(g) := QueueOf(queues, GameQueue(g)) + [p]])
      && (!direct && !room ==> PutFor(queues, gdi, g, conn, p) == queues)
  {
  }

  lemma PutKeeps(games: map<GameId, Gdi>, edis: map<EntityId, Edi>, r: Refs, g: GameId, conn: nat, p: Pkt, pkt: Packet, depth: nat)
    requires g in games && Fits(games, edis, r.queues, depth)
    ensures
      var q' := PutFor(r.queues, games[g], g, conn, p);
      && Fits(games[g := Placed(games[g], [], pkt).0], edis, q', depth)
      && Moved(r, r.(queues := q'), depth)
  {
    MovedNot(r, r.(queues := PutFor(r.queues, games[g], g, conn, p)), depth);
    hide Moved;
  }

  /** The entry of an entity goes, with its queue. */
  lemma EntryGone(games: map<GameId, Gdi>, edis: map<EntityId, Edi>, queues: Queues, e: EntityId, depth: nat)
    requires Fits(games, edis, queues, depth)
    ensures Fits(games, edis - {e}, queues[EntityQueue(e) := []], depth)
  {
  }

  /** A message, the cache and the connections do not matter to the tables, nor do slices less deep. */
  lemma OtherFits(games: map<GameId, Gdi>, edis: map<EntityId, Edi>, q0: Queues, q1: Queues, depth: nat)
    requires Fits(games, edis, q0, depth)
    requires forall h: Holder | h.GameQueue? || h.EntityQueue? || h.Slice? :: QueueOf(q1, h) == QueueOf(q0, h)
    ensures Fits(games, edis, q1, depth)
  {
  }

  /** The queue of a game is empty: its packets were given back, or sent. */
  lemma GameDrained(games: map<GameId, Gdi>, edis: map<EntityId, Edi>, r: Refs, q1: Queues, g: GameId, depth: nat)
    requires Fits(games, edis, r.queues, depth) && g in games
    requires forall h: Holder | !h.SendQueue? :: QueueOf(q1, h) == if h == GameQueue(g) then [] else QueueOf(r.queues, h)
    ensures Fits(games[g := games[g].(queue := [])], edis, q1, depth)
    ensures Moved(r, r.(queues := q1), depth)
  {
    MovedNot(r, r.(queues := q1), depth);
    hide Moved;
  }

  lemma FreezeEnds(games: map<GameId, Gdi>, edis: map<EntityId, Edi>, queues: Queues, g: GameId, now: Time, depth: nat)
    requires g in games && Expired(games[g], now)
    ensures
      var games' := games[g := games[g].(isBlocked := false)];
      && Settled(games, edis, games', edis, now, {})
      && (Fits(games, edis, queues, depth) ==> Fits(games', edis, queues, depth))
  {
  }

  /**
    In the middle of a broadcast, with the games in `left` not visited yet: entries are still there
    only when their game is not one that a clean-up has reached.
  */
  ghost predicate Midway(g0: map<GameId, Gdi>, e0: map<EntityId, Edi>, g1: map<GameId, Gdi>, e1: map<EntityId, Edi>, now: Time, left: set<GameId>)
  {
    && Settled(g0, e0, g1, e1, now, Doomed(g0, now)) && BlockedGames(g1) <= BlockedGames(g0)
    && (forall h | h in g1 && h !in left :: !Expired(g1[h], now))
    && (forall e | e in e1 && e1[e].gameid in Doomed(g0, now) :: e1[e].gameid in Doomed(g1, now))
  }

  lemma MidwayStart(games: map<GameId, Gdi>, edis: map<EntityId, Edi>, now: Time, left: set<GameId>)
    requires games.Keys <= left
    ensures Midway(games, edis, games, edis, now, left)
  {
  }

  lemma MidwayEnd(g0: map<GameId, Gdi>, e0: map<EntityId, Edi>, g1: map<GameId, Gdi>, e1: map<EntityId, Edi>, now: Time, left: set<GameId>)
    requires Midway(g0, e0, g1, e1, now, left)
    ensures Settled(g0, e0, g1, e1, now, Doomed(g0, now))
    ensures forall e | e in e1 :: e1[e].gameid !in Doomed(g0, now) - left
    ensures g1.Keys == g0.Keys && BlockedGames(g1) <= BlockedGames(g0) && forall h | h in g1 && h !in left :: !Expired(g1[h], now)
  {
  }

  lemma MidwayOne(g0: map<GameId, Gdi>, e0: map<EntityId, Edi>, g1: map<GameId, Gdi>, e1: map<EntityId, Edi>,
                  g2: map<GameId, Gdi>, e2: map<EntityId, Edi>, now: Time, left: set<GameId>, left': set<GameId>, h: GameId)
    requires Midway(g0, e0, g1, e1, now, left) && h in g1 && left - {h} <= left'
    requires Settled(g1, e1, g2, e2, now, Doomed(g1, now)) && !Expired(g2[h], now)
    requires h !in Doomed(g1, now) ==> g2 == g1[h := g2[h]]
    requires h in Doomed(g1, now) ==> forall e | e in e2 :: e2[e].gameid !in Doomed(g1, now)
    ensures Midway(g0, e0, g2, e2, now, left')
  {
    SettledTrans(g0, e0, g1, e1, g2, e2, now, Doomed(g0, now), Doomed(g1, now));
    SettledWider(g0, e0, g2, e2, now, Doomed(g0, now) + Doomed(g1, now), Doomed(g0, now));
    NotDoomed(g1, g2, h, now);
  }

  /** After the first half of a dispatch the second half changes only the queue of the game. */
  lemma PlacedSettled(g0: map<GameId, Gdi>, e0: map<EntityId, Edi>, g1: map<GameId, Gdi>, e1: map<EntityId, Edi>,
                      g: GameId, pkt: Packet, now: Time, d: set<GameId>)
    requires Settled(g0, e0, g1, e1, now, d) && g in g0 && !Expired(g1[g], now)
    ensures
      var g2 := g1[g := Placed(g1[g], [], pkt).0];
      && Settled(g0, e0, g2, e1, now, d) && !Expired(g2[g], now)
      && ((forall h | h in g1 :: !Expired(g1[h], now)) ==> forall h | h in g2 :: !Expired(g2[h], now))
      && (g1 == g0[g := Checked(g0[g], now)] ==> g2 == g0[g := Dispatched(g0[g], [], pkt, now).0])
  {
    PlacedQueueOnly(g1[g], [], pkt);
    assert g1 == g0[g := Checked(g0[g], now)] ==> g1[g] == Checked(g0[g], now);
    hide Placed, Checked;
    var g2 := g1[g := Placed(g1[g], [], pkt).0];
    QueueOnly(g1, e1, g, g2[g], now);
    SettledTrans(g0, e0, g1, e1, g2, e1, now, d, {});
    assert d + {} == d;
    if g1 == g0[g := Checked(g0[g], now)] {
      assert g2 == g0[g := g2[g]];
    }
  }

  /** Entries that are still there are as they were. */
  lemma SettledEntries(g0: map<GameId, Gdi>, e0: map<EntityId, Edi>, g1: map<GameId, Gdi>, e1: map<EntityId, Edi>, now: Time, d: set<GameId>)
    requires Settled(g0, e0, g1, e1, now, d)
    ensures g1.Keys == g0.Keys && forall e | e in e1 :: e in e0 && e1[e] == e0[e]
  {
  }

  /** A slice of this depth comes into use, or goes out of use. */
  lemma SliceMoves(games: map<GameId, Gdi>, edis: map<EntityId, Edi>, r: Refs, q1: Queues, depth: nat)
    requires forall h | h != Slice(depth) :: QueueOf(q1, h) == QueueOf(r.queues, h)
    requires Fits(games, edis, r.queues, depth + 1)
    ensures Moved(r, r.(queues := q1), depth)
    ensures Fits(games, edis, q1, depth + 1)
    ensures QueueOf(q1, Slice(depth)) == [] ==> Fits(games, edis, q1, depth)
  {
    MovedNot(r, r.(queues := q1), depth);
    hide Moved;
    forall k: nat | k >= depth
      ensures k == depth || QueueOf(q1, Slice(k)) == []
    {
    }
  }

  lemma DeeperFits(games: map<GameId, Gdi>, edis: map<EntityId, Edi>, queues: Queues, depth: nat)
    ensures Fits(games, edis, queues, depth) ==> Fits(games, edis, queues, depth + 1) && QueueOf(queues, Slice(depth)) == []
  {
  }

  // ---------- Entities and messages ----------

  lemma EntryFits(games: map<GameId, Gdi>, edis: map<EntityId, Edi>, queues: Queues, depth: nat, e: EntityId, edi: Edi)
    requires Fits(games, edis, queues, depth) && edi.queue == EntryFor(edis, e).queue
    ensures Fits(games, edis[e := edi], queues, depth)
  {
  }

  lemma EntriesLess(e0: map<EntityId, Edi>, e1: map<EntityId, Edi>)
    requires forall e | e in e1 :: e in e0 && e1[e] == e0[e]
    ensures forall e :: EntryFor(e1, e).gameid != 0 ==> EntryFor(e0, e) == EntryFor(e1, e)
  {
  }

  /** What is left of an entry's references when it is unblocked: its queue is handed on. */
  function Unblocked(r: Refs, edi: Edi, e: EntityId): Refs
  {
    if edi.blockUntil != 0 then r.(queues := r.queues[EntityQueue(e) := []]) else r
  }

  /** The queue of an entry is taken over by a local slice. */
  lemma TakeFits(games: map<GameId, Gdi>, edis: map<EntityId, Edi>, r: Refs, e: EntityId, edi: Edi, depth: nat)
    requires Fits(games, edis, r.queues, depth) && edi.queue == []
    ensures
      var q := QueueOf(r.queues, EntityQueue(e));
      var q' := r.queues[Slice(depth) := q][EntityQueue(e) := []];
      && Fits(games, edis[e := edi], q', depth + 1) && QueueOf(q', Slice(depth)) == q && |q| == |EntryFor(edis, e).queue|
      && Moved(r.(queues := r.queues[EntityQueue(e) := []]), r.(queues := q'), depth)
  {
    var q := QueueOf(r.queues, EntityQueue(e));
    var q' := r.queues[Slice(depth) := q][EntityQueue(e) := []];
    MovedNot(r.(queues := r.queues[EntityQueue(e) := []]), r.(queues := q'), depth);
    hide Moved;
    forall k: nat | k >= depth + 1
      ensures QueueOf(q', Slice(k)) == QueueOf(r.queues, Slice(k))
    {
    }
  }

  /** A packet arrives at an entity: its queue gains the packet, or is handed on when a block ran out. */
  function Arrived(r: Refs, edi: Edi, e: EntityId, p: Pkt, now: Time): Refs
  {
    if edi.blockUntil == 0 then r
    else if now < edi.blockUntil then
      if |edi.queue| < ENTITY_PENDING_PACKET_QUEUE_MAX_LEN then
        r.(queues := r.queues[EntityQueue(e) := QueueOf(r.queues, EntityQueue(e)) + [p]])
      else r
    else Unblocked(r, edi, e)
  }

  lemma ArrivedFits(games: map<GameId, Gdi>, edis: map<EntityId, Edi>, queues: Queues, depth: nat, e: EntityId, p: Pkt, msg: Msg)
    requires Fits(games, edis, queues, depth) && e in edis
    ensures Fits(games, edis[e := edis[e].(queue := edis[e].queue + [msg])],
                 queues[EntityQueue(e) := QueueOf(queues, EntityQueue(e)) + [p]], depth)
  {
  }

  // ---------- Packets for games ----------

  lemma OneCleaned(edis: map<EntityId, Edi>, clean: set<EntityId>, left: set<EntityId>, e: EntityId)
    requires e in left && left <= clean <= edis.Keys
    ensures e in edis - (clean - left) && edis - (clean - left) - {e} == edis - (clean - (left - {e}))
  {
  }

  lemma AllGone(edis: map<EntityId, Edi>, g: GameId, clean: set<EntityId>)
    requires forall e :: e in clean <==> e in edis && edis[e].gameid == g
    ensures edis - (clean - {}) == Without(edis, g)
  {
  }

  /** What was sent to games, and what is queued for them, is as it was. */
  ghost predicate SameGames(q0: Queues, q1: Queues)
  {
    forall h: Holder | h.SendQueue? || h.GameQueue? :: QueueOf(q1, h) == QueueOf(q0, h)
  }

  lemma SameGamesNow(q: Queues)
    ensures SameGames(q, q)
  {
  }

  lemma SameGamesForget(q0: Queues, q1: Queues, e: EntityId)
    requires SameGames(q0, q1)
    ensures SameGames(q0, q1[EntityQueue(e) := []])
  {
  }

  /** One packet was dispatched to one game, unless that was found to be down. */
  ghost predicate DispatchedOne(g0: map<GameId, Gdi>, e0: map<EntityId, Edi>, q0: Queues, g1: map<GameId, Gdi>, e1: map<EntityId, Edi>,
                                q1: Queues, conns: map<GameId, nat>, g: GameId, p: Pkt, pkt: Packet, now: Time)
  {
    g in g0 && g in conns && g !in Doomed(g0, now) ==>
      && g1 == g0[g := Dispatched(g0[g], [], pkt, now).0] && e1 == e0
      && SameGames(PutFor(q0, Checked(g0[g], now), g, conns[g], p), q1)
  }

  lemma OneDispatched(g0: map<GameId, Gdi>, e0: map<EntityId, Edi>, q0: Queues, g1: map<GameId, Gdi>, e1: map<EntityId, Edi>,
                      q1: Queues, conns: map<GameId, nat>, g: GameId, p: Pkt, pkt: Packet, now: Time)
    requires g in g0 && g in conns
    requires g !in Doomed(g0, now) ==>
               && g1 == g0[g := Dispatched(g0[g], [], pkt, now).0] && e1 == e0
               && q1 == PutFor(q0, Checked(g0[g], now), g, conns[g], p)
    ensures DispatchedOne(g0, e0, q0, g1, e1, q1, conns, g, p, pkt, now)
  {
    hide Doomed, Dispatched, Checked, PutFor;
  }

  lemma OneOther(g0: map<GameId, Gdi>, e0: map<EntityId, Edi>, q0: Queues, g1: map<GameId, Gdi>, e1: map<EntityId, Edi>,
                 q1: Queues, q2: Queues, conns: map<GameId, nat>, g: GameId, p: Pkt, pkt: Packet, now: Time)
    requires DispatchedOne(g0, e0, q0, g1, e1, q1, conns, g, p, pkt, now) && SameGames(q1, q2)
    ensures DispatchedOne(g0, e0, q0, g1, e1, q2, conns, g, p, pkt, now)
  {
    hide Doomed, Dispatched, Checked, PutFor;
  }

  /** Where a dispatch puts a packet. */
  lemma PutWhere(q0: Queues, gdi: Gdi, g: GameId, conn: nat, p: Pkt, now: Time)
    ensures
      var q1 := PutFor(q0, Checked(gdi, now), g, conn, p);
      forall h: Holder ::
        QueueOf(q1, h) == if h == (if Direct(gdi, now) then SendQueue(conn) else GameQueue(g)) && (Direct(gdi, now) || Room(gdi, 1) == 1)
                          then QueueOf(q0, h) + [p] else QueueOf(q0, h)
  {
  }

  lemma PutGames(q0: Queues, q1: Queues, gdi: Gdi, g: GameId, conn: nat, p: Pkt, now: Time)
    requires SameGames(PutFor(q0, Checked(gdi, now), g, conn, p), q1)
    ensures forall k: GameId ::
              QueueOf(q1, GameQueue(k)) ==
                if k == g && !Direct(gdi, now) && Room(gdi, 1) == 1 then QueueOf(q0, GameQueue(k)) + [p] else QueueOf(q0, GameQueue(k))
    ensures forall c: nat ::
              QueueOf(q1, SendQueue(c)) == if c == conn && Direct(gdi, now) then QueueOf(q0, SendQueue(c)) + [p] else QueueOf(q0, SendQueue(c))
  {
    PutWhere(q0, gdi, g, conn, p, now);
    hide PutFor, Checked, Direct, Room;
  }

  // ---------- Broadcasts ----------

  /** No other game has the connection of game `g`. */
  predicate Sole(conns: map<GameId, nat>, g: GameId)
  {
    g in conns && forall k | k in conns && conns[k] == conns[g] :: k == g
  }

  /** The packet of game `g` is sent at once. */
  predicate Sent(games: map<GameId, Gdi>, conns: map<GameId, nat>, ps: map<GameId, Pkt>, g: GameId, now: Time)
  {
    g in ps && g in games && g in conns && Direct(games[g], now)
  }

  ghost predicate TablesSpread(g0: map<GameId, Gdi>, g1: map<GameId, Gdi>, gs: set<GameId>, pkt: Packet, now: Time)
  {
    g1.Keys == g0.Keys && forall g | g in g0 :: g1[g] == if g in gs then Dispatched(g0[g], [], pkt, now).0 else g0[g]
  }

  ghost predicate QueuesSpread(g0: map<GameId, Gdi>, q0: Queues, q1: Queues, ps: map<GameId, Pkt>, now: Time)
  {
    forall g: GameId ::
      QueueOf(q1, GameQueue(g)) ==
        if g in g0 && g in ps && !Direct(g0[g], now) && Room(g0[g], 1) == 1 then QueueOf(q0, GameQueue(g)) + [ps[g]]
        else QueueOf(q0, GameQueue(g))
  }

  ghost predicate SendsSpread(g0: map<GameId, Gdi>, q0: Queues, q1: Queues, conns: map<GameId, nat>, ps: map<GameId, Pkt>, now: Time)
  {
    && (forall c: nat | forall g | Sent(g0, conns, ps, g, now) :: conns[g] != c :: QueueOf(q1, SendQueue(c)) == QueueOf(q0, SendQueue(c)))
    && (forall g | Sent(g0, conns, ps, g, now) ::
          && ps[g] in QueueOf(q1, SendQueue(conns[g]))
          && (Sole(conns, g) ==> QueueOf(q1, SendQueue(conns[g])) == QueueOf(q0, SendQueue(conns[g])) + [ps[g]]))
  }

  /**
    With no game found to be down: each game of `ps` had its packet dispatched to it, which was sent on
    its connection or is held by its queue, and nothing else was sent or queued.
  */
  ghost predicate Spread(g0: map<GameId, Gdi>, e0: map<EntityId, Edi>, q0: Queues, g1: map<GameId, Gdi>, e1: map<EntityId, Edi>,
                         q1: Queues, conns: map<GameId, nat>, ps: map<GameId, Pkt>, pkt: Packet, now: Time)
  {
    Doomed(g0, now) == {} ==>
      e1 == e0 && TablesSpread(g0, g1, ps.Keys, pkt, now) && QueuesSpread(g0, q0, q1, ps, now) && SendsSpread(g0, q0, q1, conns, ps, now)
  }

  function ToEach(gs: set<GameId>, p: Pkt): (r: map<GameId, Pkt>)
    ensures r.Keys == gs
  {
    map g | g in gs :: p
  }

  lemma ToEachNone(gs: set<GameId>, p: Pkt)
    requires gs == {}
    ensures ToEach(gs, p) == map[]
  {
  }

  lemma ToEachMore(gs: set<GameId>, g: GameId, p: Pkt)
    ensures ToEach(gs, p)[g := p] == ToEach(gs + {g}, p)
  {
  }

  lemma SpreadNone(games: map<GameId, Gdi>, edis: map<EntityId, Edi>, queues: Queues, conns: map<GameId, nat>, pkt: Packet, now: Time)
    ensures Spread(games, edis, queues, games, edis, queues, conns, map[], pkt, now)
  {
  }

  lemma SpreadOne(g0: map<GameId, Gdi>, e0: map<EntityId, Edi>, q0: Queues, g1: map<GameId, Gdi>, e1: map<EntityId, Edi>, q1: Queues,
                  g2: map<GameId, Gdi>, e2: map<EntityId, Edi>, q2: Queues, conns: map<GameId, nat>, ps: map<GameId, Pkt>,
                  h: GameId, p: Pkt, pkt: Packet, now: Time)
    requires Spread(g0, e0, q0, g1, e1, q1, conns, ps, pkt, now) && h in g1 && h in conns && h !in ps
    requires DispatchedOne(g1, e1, q1, g2, e2, q2, conns, h, p, pkt, now)
    ensures Spread(g0, e0, q0, g2, e2, q2, conns, ps[h := p], pkt, now)
  {
    if Doomed(g0, now) == {} {
      assert g1[h] == g0[h];
      SameDoom(g0, g1, h, now);
      hide Doomed, PutFor, Checked, Direct, Dispatched, TablesSpread, QueuesSpread, SendsSpread, SameGames, Room;
      PutGames(q1, q2, g0[h], h, conns[h], p, now);
      assert ps[h := p].Keys == ps.Keys + {h};
      TablesOne(g0, g1, g2, ps.Keys, h, pkt, now);
      QueuesOne(g0, q0, q1, q2, conns[h], ps, h, p, now);
      SendsOne(g0, q0, q1, q2, conns, ps, h, p, now);
    }
  }

  lemma TablesOne(g0: map<GameId, Gdi>, g1: map<GameId, Gdi>, g2: map<GameId, Gdi>, gs: set<GameId>, h: GameId, pkt: Packet, now: Time)
    requires TablesSpread(g0, g1, gs, pkt, now) && h in g1 && h !in gs && g2 == g1[h := Dispatched(g1[h], [], pkt, now).0]
    ensures TablesSpread(g0, g2, gs + {h}, pkt, now)
  {
    hide Dispatched;
  }

  lemma QueuesOne(g0: map<GameId, Gdi>, q0: Queues, q1: Queues, q2: Queues, conn: nat, ps: map<GameId, Pkt>, h: GameId, p: Pkt, now: Time)
    requires QueuesSpread(g0, q0, q1, ps, now) && h in g0 && h !in ps
    requires forall k: GameId ::
               QueueOf(q2, GameQueue(k)) ==
                 if k == h && !Direct(g0[h], now) && Room(g0[h], 1) == 1 then QueueOf(q1, GameQueue(k)) + [p] else QueueOf(q1, GameQueue(k))
    ensures QueuesSpread(g0, q0, q2, ps[h := p], now)
  {
    hide Direct, Room;
  }

  lemma SendsOne(g0: map<GameId, Gdi>, q0: Queues, q1: Queues, q2: Queues, conns: map<GameId, nat>, ps: map<GameId, Pkt>, h: GameId, p: Pkt, now: Time)
    requires SendsSpread(g0, q0, q1, conns, ps, now) && h in g0 && h in conns && h !in ps
    requires forall c: nat ::
               QueueOf(q2, SendQueue(c)) == if c == conns[h] && Direct(g0[h], now) then QueueOf(q1, SendQueue(c)) + [p] else QueueOf(q1, SendQueue(c))
    ensures SendsSpread(g0, q0, q2, conns, ps[h := p], now)
  {
    hide Direct;
    var ps' := ps[h := p];
    forall c: nat | forall g | Sent(g0, conns, ps', g, now) :: conns[g] != c
      ensures QueueOf(q2, SendQueue(c)) == QueueOf(q0, SendQueue(c))
    {
      assert Direct(g0[h], now) ==> Sent(g0, conns, ps', h, now);
      assert forall g | Sent(g0, conns, ps, g, now) :: Sent(g0, conns, ps', g, now);
    }
    forall g | Sent(g0, conns, ps', g, now)
      ensures ps'[g] in QueueOf(q2, SendQueue(conns[g]))
      ensures Sole(conns, g) ==> QueueOf(q2, SendQueue(conns[g])) == QueueOf(q0, SendQueue(conns[g])) + [ps'[g]]
    {
      if g == h {
        assert Sole(conns, h) ==> forall k | Sent(g0, conns, ps, k, now) :: conns[k] != conns[h];
      } else {
        assert Sent(g0, conns, ps, g, now);
        assert Sole(conns, g) ==> conns[h] != conns[g];
      }
    }
  }

  /** Other queues do not matter. */
  lemma SpreadOther(g0: map<GameId, Gdi>, e0: map<EntityId, Edi>, q0: Queues, q1: Queues, g2: map<GameId, Gdi>, e2: map<EntityId, Edi>,
                    q2: Queues, q3: Queues, conns: map<GameId, nat>, ps: map<GameId, Pkt>, pkt: Packet, now: Time)
    requires SameGames(q0, q1) && SameGames(q2, q3) && Spread(g0, e0, q1, g2, e2, q2, conns, ps, pkt, now)
    ensures Spread(g0, e0, q0, g2, e2, q3, conns, ps, pkt, now)
  {
    if Doomed(g0, now) == {} {
      hide TablesSpread, Direct, Room, Doomed, Sole;
      QueuesOther(g0, q0, q1, q2, q3, ps, now);
      SendsOther(g0, q0, q1, q2, q3, conns, ps, now);
      hide QueuesSpread, SendsSpread, SameGames;
    }
  }

  lemma QueuesOther(g0: map<GameId, Gdi>, q0: Queues, q1: Queues, q2: Queues, q3: Queues, ps: map<GameId, Pkt>, now: Time)
    requires SameGames(q0, q1) && SameGames(q2, q3) && QueuesSpread(g0, q1, q2, ps, now)
    ensures QueuesSpread(g0, q0, q3, ps, now)
  {
    hide Direct, Room;
  }

  lemma SendsOther(g0: map<GameId, Gdi>, q0: Queues, q1: Queues, q2: Queues, q3: Queues, conns: map<GameId, nat>, ps: map<GameId, Pkt>, now: Time)
    requires SameGames(q0, q1) && SameGames(q2, q3) && SendsSpread(g0, q1, q2, conns, ps, now)
    ensures SendsSpread(g0, q0, q3, conns, ps, now)
  {
    hide Sent, Sole;
  }

  lemma SpreadFrom(g0: map<GameId, Gdi>, e0: map<EntityId, Edi>, q0: Queues, q1: Queues, g2: map<GameId, Gdi>, e2: map<EntityId, Edi>,
                   q2: Queues, conns: map<GameId, nat>, ps: map<GameId, Pkt>, pkt: Packet, now: Time)
    requires SameGames(q0, q1) && Spread(g0, e0, q1, g2, e2, q2, conns, ps, pkt, now)
    ensures Spread(g0, e0, q0, g2, e2, q2, conns, ps, pkt, now)
  {
    hide Spread;
    SpreadOther(g0, e0, q0, q1, g2, e2, q2, q2, conns, ps, pkt, now);
  }

  /** After both clean-ups of a game that is down. */
  lemma ClearedGames(q0: Queues, q1: Queues, q2: Queues, g: GameId)
    requires SameGames(q0, q1) && SameGames(q1[GameQueue(g) := []], q2)
    ensures SameGames(q0[GameQueue(g) := []], q2)
  {
  }

  // ---------- Queues handed on ----------

  /** Messages for game `g`, which are the packets `ps`, were sent on its connection, or wait as far as there is room. */
  ghost predicate PacketsPass(g0: map<GameId, Gdi>, q0: Queues, g1: map<GameId, Gdi>, q1: Queues, conns: map<GameId, nat>,
                              g: GameId, msgs: seq<Msg>, ps: seq<Pkt>, now: Time)
  {
    g in g0 && g in conns ==>
      && |ps| == |msgs| && g1 == g0[g := Passed(g0[g], [], msgs, now).0]
      && forall h: Holder | h.SendQueue? || h.GameQueue? :: QueueOf(q1, h) == QueueOf(q0, h) + GoesTo(g0[g], conns[g], g, ps, now, h)
  }

  /** Those of the packets `ps` for game `g` that come into the queue `h`. */
  function GoesTo(gdi: Gdi, conn: nat, g: GameId, ps: seq<Pkt>, now: Time, h: Holder): seq<Pkt>
  {
    if h == SendQueue(conn) && Direct(gdi, now) then ps
    else if h == GameQueue(g) && !Direct(gdi, now) then ps[..Room(gdi, |ps|)]
    else []
  }

  lemma PassNone(games: map<GameId, Gdi>, q0: Queues, q1: Queues, conns: map<GameId, nat>, g: GameId, now: Time)
    requires SameGames(q0, q1)
    ensures PacketsPass(games, q0, games, q1, conns, g, [], [], now)
  {
    assert g in games ==> games[g := games[g]] == games;
  }

  lemma PassOne(g0: map<GameId, Gdi>, e0: map<EntityId, Edi>, q0: Queues, g1: map<GameId, Gdi>, e1: map<EntityId, Edi>, q1: Queues,
                conns: map<GameId, nat>, g: GameId, msg: Msg, p: Pkt, now: Time)
    requires DispatchedOne(g0, e0, q0, g1, e1, q1, conns, g, p, ToEntity(msg), now) && g !in Doomed(g0, now)
    ensures PacketsPass(g0, q0, g1, q1, conns, g, [msg], [p], now)
  {
    if g in g0 && g in conns {
      PassedOne(g0[g], [], msg, now);
      PutWhere(q0, g0[g], g, conns[g], p, now);
      hide Passed, Dispatched, PutFor, Checked, Doomed;
      forall h: Holder | h.SendQueue? || h.GameQueue?
        ensures QueueOf(q1, h) == QueueOf(q0, h) + GoesTo(g0[g], conns[g], g, [p], now, h)
      {
        assert [p][..Room(g0[g], 1)] == if Room(g0[g], 1) == 1 then [p] else [];
      }
    }
  }

  lemma PassMore(g0: map<GameId, Gdi>, q0: Queues, g1: map<GameId, Gdi>, q1: Queues, g2: map<GameId, Gdi>, q2: Queues,
                 conns: map<GameId, nat>, g: GameId, first: seq<Msg>, ps: seq<Pkt>, more: seq<Msg>, qs: seq<Pkt>, now: Time)
    requires PacketsPass(g0, q0, g1, q1, conns, g, first, ps, now) && PacketsPass(g1, q1, g2, q2, conns, g, more, qs, now)
    ensures PacketsPass(g0, q0, g2, q2, conns, g, first + more, ps + qs, now)
  {
    if g in g0 && g in conns {
      TablesPassMore(g0, g1, g2, g, first, more, now);
      hide Passed, GoesTo;
      forall h: Holder | h.SendQueue? || h.GameQueue?
        ensures QueueOf(q2, h) == QueueOf(q0, h) + GoesTo(g0[g], conns[g], g, ps + qs, now, h)
      {
        GoesToMore(g0[g], conns[g], g, first, ps, qs, now, h);
        Together(QueueOf(q0, h), GoesTo(g0[g], conns[g], g, ps, now, h), GoesTo(g1[g], conns[g], g, qs, now, h));
      }
    }
  }

  lemma Together(a: seq<Pkt>, b: seq<Pkt>, c: seq<Pkt>)
    ensures a + b + c == a + (b + c)
  {
  }

  lemma TablesPassMore(g0: map<GameId, Gdi>, g1: map<GameId, Gdi>, g2: map<GameId, Gdi>, g: GameId, first: seq<Msg>, more: seq<Msg>, now: Time)
    requires g in g0 && g1 == g0[g := Passed(g0[g], [], first, now).0] && g2 == g1[g := Passed(g1[g], [], more, now).0]
    ensures g1[g] == Passed(g0[g], [], first, now).0 && g2 == g0[g := Passed(g0[g], [], first + more, now).0]
  {
    PassedMore(g0[g], [], first, more, now);
    PassedAnyway(g1[g], Passed(g0[g], [], first, now).1, more, now);
    hide Passed;
  }

  lemma PassedAnyway(gdi: Gdi, sent: seq<Packet>, msgs: seq<Msg>, now: Time)
    ensures Passed(gdi, sent, msgs, now).0 == Passed(gdi, [], msgs, now).0
  {
  }

  lemma GoesToMore(gdi: Gdi, conn: nat, g: GameId, first: seq<Msg>, ps: seq<Pkt>, qs: seq<Pkt>, now: Time, h: Holder)
    requires |ps| == |first|
    ensures
      var gdi' := Passed(gdi, [], first, now).0;
      GoesTo(gdi, conn, g, ps + qs, now, h) == GoesTo(gdi, conn, g, ps, now, h) + GoesTo(gdi', conn, g, qs, now, h)
  {
    var gdi' := Passed(gdi, [], first, now).0;
    assert Direct(gdi', now) == Direct(gdi, now);
    if !Direct(gdi, now) {
      var n := Room(gdi, |ps|);
      assert |gdi'.queue| == |gdi.queue| + n;
      assert (ps + qs)[..Room(gdi, |ps + qs|)] == ps[..n] + qs[..Room(gdi', |qs|)];
    }
  }

  // ---------- Between dispatches ----------

  /** The cache holds one reference to each packet in it. */
  ghost predicate Cached(queues: Queues, cache: map<GameId, Pkt>)
  {
    forall g: GameId :: QueueOf(queues, SyncCache(g)) == if g in cache then [cache[g]] else []
  }

  /** What is dispatched moves neither the message nor the cache, and loses references or none. */
  lemma CachedKept(base: Refs, r0: Refs, r1: Refs, cache: map<GameId, Pkt>)
    requires Moved(base, r1, 0) && base.lost == r0.lost && Cached(r0.queues, cache)
    requires forall h: Holder | h.Message? || h.SyncCache? :: QueueOf(base.queues, h) == QueueOf(r0.queues, h)
    ensures Cached(r1.queues, cache) && QueueOf(r1.queues, Message) == QueueOf(r0.queues, Message) && r0.lost <= r1.lost
  {
    hide Waiting;
    assert Fixed(Message, 0);
    forall g: GameId
      ensures QueueOf(r1.queues, SyncCache(g)) == QueueOf(r0.queues, SyncCache(g))
    {
      assert Fixed(SyncCache(g), 0);
    }
  }

  lemma CachedOther(q0: Queues, q1: Queues, cache: map<GameId, Pkt>)
    requires Cached(q0, cache) && forall h: Holder | h.SyncCache? :: QueueOf(q1, h) == QueueOf(q0, h)
    ensures Cached(q1, cache)
  {
  }

  // ---------- Connections ----------

  lemma NewGameFits(games: map<GameId, Gdi>, edis: map<EntityId, Edi>, queues: Queues, depth: nat, g: GameId)
    requires Fits(games, edis, queues, depth) && g !in games
    ensures Fits(games[g := Gdi(false, false, 0, [])], edis, queues, depth)
  {
  }

  /** Only the queue in the table of a game matters to the queues. */
  lemma GameFits(games: map<GameId, Gdi>, edis: map<EntityId, Edi>, queues: Queues, depth: nat, g: GameId, gdi: Gdi)
    requires Fits(games, edis, queues, depth) && g in games && gdi.queue == games[g].queue
    ensures Fits(games[g := gdi], edis, queues, depth)
  {
  }

  /** As long as no entry goes, nothing is lost and no entity queue changes. */
  lemma NothingLost(r0: Refs, r1: Refs, depth: nat)
    requires Moved(r0, r1, depth) && r1.eids == r0.eids
    ensures r1.lost == r0.lost && forall e: EntityId :: QueueOf(r1.queues, EntityQueue(e)) == QueueOf(r0.queues, EntityQueue(e))
  {
    assert r0.eids - r1.eids == {};
    forall p: Pkt
      ensures r1.lost[p] == r0.lost[p]
    {
      WaitingNone(r0.queues, {}, p);
    }
    assert forall p :: r1.lost[p] == r0.lost[p];
    assert r1.lost == r0.lost;
  }

  /** What is lost with entries whose queues were not touched before. */
  lemma GoneLater(r0: Refs, r1: Refs, r2: Refs)
    requires Moved(r1, r2, 0) && r1.lost == r0.lost
    requires forall e | e in r1.eids - r2.eids :: QueueOf(r1.queues, EntityQueue(e)) == QueueOf(r0.queues, EntityQueue(e))
    ensures forall p: Pkt :: r2.lost[p] == r0.lost[p] + Waiting(r0.queues, r1.eids - r2.eids, p)
  {
    hide Waiting;
    forall p: Pkt
      ensures r2.lost[p] == r0.lost[p] + Waiting(r0.queues, r1.eids - r2.eids, p)
    {
      WaitingSame(r0.queues, r1.queues, r1.eids - r2.eids, p);
    }
  }

  /** What is lost in two rounds. */
  lemma GoneTogether(r0: Refs, r1: Refs, lost: multiset<Pkt>, gone: set<EntityId>)
    requires Moved(r0, r1, 0) && gone <= r1.eids && forall p: Pkt :: lost[p] == r1.lost[p] + Waiting(r1.queues, gone, p)
    ensures forall p: Pkt :: lost[p] == r0.lost[p] + Waiting(r0.queues, (r0.eids - r1.eids) + gone, p)
  {
    hide Waiting;
    forall p: Pkt
      ensures lost[p] == r0.lost[p] + Waiting(r0.queues, (r0.eids - r1.eids) + gone, p)
    {
      WaitingUnion(r0.queues, r0.eids - r1.eids, gone, p);
      WaitingSame(r0.queues, r1.queues, gone, p);
    }
  }

  // ---------- Cached packets ----------

  /** The order in which a map is traversed: each key once. */
  ghost predicate Traversal(order: seq<GameId>, keys: set<GameId>)
  {
    (forall i, j | 0 <= i < j < |order| :: order[i] != order[j]) && forall g :: g in order <==> g in keys
  }

  /** References without those of the first `n` cached packets. */
  function Uncached(r: Refs, gs: seq<GameId>, n: nat): Refs
    requires n <= |gs|
  {
    if n == 0 then r else
    var r' := Uncached(r, gs, n - 1);
    r'.(queues := r'.queues[SyncCache(gs[n - 1]) := []])
  }

  /** Taking a packet out of the cache does not matter to the entity queues. */
  lemma WithoutCached(r0: Refs, r1: Refs, g: GameId)
    requires Moved(r0, r1, 0)
    ensures Moved(r0.(queues := r0.queues[SyncCache(g) := []]), r1.(queues := r1.queues[SyncCache(g) := []]), 0)
  {
    hide Waiting;
    var b0, b1 := r0.(queues := r0.queues[SyncCache(g) := []]), r1.(queues := r1.queues[SyncCache(g) := []]);
    forall p: Pkt
      ensures b1.lost[p] == b0.lost[p] + Waiting(b0.queues, b0.eids - b1.eids, p)
    {
      WaitingSame(r0.queues, b0.queues, b0.eids - b1.eids, p);
    }
    forall h: Holder | Fixed(h, 0)
      ensures QueueOf(b1.queues, h) == QueueOf(b0.queues, h)
    {
      assert QueueOf(r1.queues, h) == QueueOf(r0.queues, h);
    }
  }

  lemma UncachedMore(r0: Refs, r1: Refs, r2: Refs, gs: seq<GameId>, i: nat)
    requires i < |gs| && Moved(Uncached(r0, gs, i), r1, 0)
    requires Moved(r1.(queues := r1.queues[SyncCache(gs[i]) := []]), r2, 0)
    ensures Moved(Uncached(r0, gs, i + 1), r2, 0)
  {
    hide Moved;
    WithoutCached(Uncached(r0, gs, i), r1, gs[i]);
    MovedTrans(Uncached(r0, gs, i + 1), r1.(queues := r1.queues[SyncCache(gs[i]) := []]), r2, 0, 0);
  }

  /** The packet of one game leaves the cache. */
  lemma LeavesCache(queues: Queues, cache: map<GameId, Pkt>, g: GameId)
    requires Cached(queues, cache)
    ensures Cached(queues[SyncCache(g) := []], cache - {g})
  {
  }

  /** A packet of the cache was sent and is given back. */
  lemma CachedReleased(games: map<GameId, Gdi>, edis: map<EntityId, Edi>, r0: Refs, r1: Refs, rest: map<GameId, Pkt>, g: GameId)
    requires Fits(games, edis, r1.queues, 0) && Moved(r0, r1, 0) && Cached(r1.queues, rest) && g in rest
    ensures QueueOf(r1.queues, SyncCache(g)) != []
    ensures
      var q2 := r1.queues[SyncCache(g) := QueueOf(r1.queues, SyncCache(g))[1..]];
      && Fits(games, edis, q2, 0) && Cached(q2, rest - {g}) && QueueOf(q2, Message) == QueueOf(r1.queues, Message)
      && Moved(r0.(queues := r0.queues[SyncCache(g) := []]), r1.(queues := q2), 0)
      && forall c: nat :: QueueOf(q2, SendQueue(c)) == QueueOf(r1.queues, SendQueue(c))
  {
    CachedAt(r1.queues, rest, g);
    var q2 := r1.queues[SyncCache(g) := []];
    assert QueueOf(r1.queues, SyncCache(g))[1..] == [];
    WithoutCached(r0, r1, g);
    LeavesCache(r1.queues, rest, g);
    hide Moved, Cached;
    OtherFits(games, edis, r1.queues, q2, 0);
  }

  lemma EntersCache(queues: Queues, cache: map<GameId, Pkt>, g: GameId, p: Pkt)
    requires Cached(queues, cache) && g !in cache
    ensures Cached(queues[SyncCache(g) := QueueOf(queues, SyncCache(g)) + [p]], cache[g := p])
  {
  }

  lemma CachedAt(queues: Queues, cache: map<GameId, Pkt>, g: GameId)
    requires Cached(queues, cache) && g in cache
    ensures QueueOf(queues, SyncCache(g)) == [cache[g]]
  {
  }

  /** What is in the cache for all games but the first `n`. */
  function Rest(cache: map<GameId, Pkt>, gs: seq<GameId>, n: nat): map<GameId, Pkt>
    requires n <= |gs|
  {
    if n == 0 then cache else Rest(cache, gs, n - 1) - {gs[n - 1]}
  }

  lemma {:induction false} RestOf(cache: map<GameId, Pkt>, gs: seq<GameId>, n: nat)
    requires n <= |gs|
    ensures forall g :: g in Rest(cache, gs, n) <==> g in cache && g !in gs[..n]
    ensures forall g | g in Rest(cache, gs, n) :: Rest(cache, gs, n)[g] == cache[g]
  {
    if n > 0 {
      RestOf(cache, gs, n - 1);
      assert gs[..n] == gs[..n - 1] + [gs[n - 1]];
    }
  }

  lemma RestMore(cache: map<GameId, Pkt>, order: seq<GameId>, i: nat)
    requires i < |order| && Traversal(order, cache.Keys)
    ensures Rest(cache, order, i + 1) == Rest(cache, order, i) - {order[i]}
    ensures order[i] in cache && order[i] in Rest(cache, order, i) && Rest(cache, order, i)[order[i]] == cache[order[i]]
  {
    assert order[i] in order;
    RestOf(cache, order, i);
  }

  lemma FirstOut(r: Refs, cache: map<GameId, Pkt>, order: seq<GameId>)
    requires order != []
    ensures Uncached(r, order, 1) == r.(queues := r.queues[SyncCache(order[0]) := []])
    ensures Rest(cache, order, 1) == cache - {order[0]}
  {
    assert Uncached(r, order, 0) == r;
    assert Rest(cache, order, 0) == cache;
  }

  lemma RestNone(cache: map<GameId, Pkt>, order: seq<GameId>)
    requires Traversal(order, cache.Keys)
    ensures Rest(cache, order, |order|) == map[]
  {
    RestOf(cache, order, |order|);
    assert order[..|order|] == order;
  }

  /** The packets put into the cache since it was `before` are held by nothing else. */
  ghost predicate Unshared(queues: Queues, before: map<GameId, Pkt>, cache: map<GameId, Pkt>)
  {
    forall g, h | g in cache && g !in before && h != SyncCache(g) :: cache[g] !in QueueOf(queues, h)
  }

  lemma UnsharedMore(queues: Queues, before: map<GameId, Pkt>, cache: map<GameId, Pkt>, g: GameId, p: Pkt)
    requires Unshared(queues, before, cache) && Cached(queues, cache) && g !in cache
    requires forall h :: p !in QueueOf(queues, h)
    ensures Unshared(queues[SyncCache(g) := QueueOf(queues, SyncCache(g)) + [p]], before, cache[g := p])
  {
    var queues', cache' := queues[SyncCache(g) := QueueOf(queues, SyncCache(g)) + [p]], cache[g := p];
    forall k, h | k in cache' && k !in before && h != SyncCache(k)
      ensures cache'[k] !in QueueOf(queues', h)
    {
      if k != g {
        assert cache[k] in QueueOf(queues, SyncCache(k));
        assert cache[k] !in QueueOf(queues, h) && cache[k] !in [p];
        assert QueueOf(queues', h) == QueueOf(queues, h) || QueueOf(queues', h) == QueueOf(queues, h) + [p];
      } else {
        assert QueueOf(queues', h) == QueueOf(queues, h);
      }
    }
  }

  /** A new packet is cached: nothing else changes, and nothing else holds it. */
  lemma NewCached(games: map<GameId, Gdi>, edis: map<EntityId, Edi>, q0: Queues, before: map<GameId, Pkt>, cache: map<GameId, Pkt>, g: GameId, p: Pkt)
    requires Fits(games, edis, q0, 0) && Cached(q0, cache) && Unshared(q0, before, cache) && g !in cache
    requires forall h :: p !in QueueOf(q0, h)
    ensures
      var q1 := q0[SyncCache(g) := QueueOf(q0, SyncCache(g)) + [p]];
      && Fits(games, edis, q1, 0) && Cached(q1, cache[g := p]) && Unshared(q1, before, cache[g := p])
      && forall h: Holder | !h.SyncCache? :: QueueOf(q1, h) == QueueOf(q0, h)
  {
    UnsharedMore(q0, before, cache, g, p);
    EntersCache(q0, cache, g, p);
    hide Cached, Unshared;
    OtherFits(games, edis, q0, q0[SyncCache(g) := QueueOf(q0, SyncCache(g)) + [p]], 0);
  }

  lemma OneHolder(queues: Queues, before: map<GameId, Pkt>, cache: map<GameId, Pkt>, g: GameId)
    requires Unshared(queues, before, cache) && g in cache && g !in before
    ensures var q := queues[Message := []]; forall h | h != SyncCache(g) :: cache[g] !in QueueOf(q, h)
  {
    var q := queues[Message := []];
    forall h | h != SyncCache(g)
      ensures cache[g] !in QueueOf(q, h)
    {
      assert cache[g] !in QueueOf(queues, h);
    }
  }

  /** Game `g` has one of the entities. */
  ghost predicate Concerned(edis: map<EntityId, Edi>, eids: seq<EntityId>, g: GameId)
  {
    exists e :: e in eids && e in edis && edis[e].gameid == g
  }

  lemma ConcernedMore(edis: map<EntityId, Edi>, eids: seq<EntityId>, i: nat, g: GameId)
    requires i < |eids|
    ensures Concerned(edis, eids[..i + 1], g) <==>
              Concerned(edis, eids[..i], g) || (eids[i] in edis && edis[eids[i]].gameid == g)
  {
    assert eids[..i + 1] == eids[..i] + [eids[i]];
    if Concerned(edis, eids[..i + 1], g) {
      var e :| e in eids[..i + 1] && e in edis && edis[e].gameid == g;
      assert e in eids[..i] || e == eids[i];
    }
    if eids[i] in edis && edis[eids[i]].gameid == g {
      assert eids[i] in eids[..i + 1];
    }
    if Concerned(edis, eids[..i], g) {
      var e :| e in eids[..i] && e in edis && edis[e].gameid == g;
      assert e in eids[..i + 1];
    }
  }

  /** A new packet that only a connection holds in the end. */
  lemma SentNew(games: map<GameId, Gdi>, edis: map<EntityId, Edi>, r: Refs, conn: nat, p: Pkt)
    requires Fits(games, edis, r.queues, 0)
    ensures
      var q1 := r.queues[Slice(0) := QueueOf(r.queues, Slice(0)) + [p]];
      var q2 := q1[SendQueue(conn) := QueueOf(q1, SendQueue(conn)) + [p]];
      var q3 := q2[Slice(0) := QueueOf(q2, Slice(0))[1..]];
      Fits(games, edis, q3, 0) && Moved(r, r.(queues := q3), 0)
  {
    var q1 := r.queues[Slice(0) := QueueOf(r.queues, Slice(0)) + [p]];
    var q2 := q1[SendQueue(conn) := QueueOf(q1, SendQueue(conn)) + [p]];
    var q3 := q2[Slice(0) := QueueOf(q2, Slice(0))[1..]];
    MovedNot(r, r.(queues := q3), 0);
    hide Moved;
    OtherFits(games, edis, r.queues, q3, 0);
  }

  /** The queues of entities are as they were, but for those that were taken in. */
  ghost predicate Untouched(q0: Queues, q1: Queues, eids: seq<EntityId>, rejected: seq<EntityId>)
  {
    && (forall e: EntityId | e !in eids || e in rejected :: QueueOf(q1, EntityQueue(e)) == QueueOf(q0, EntityQueue(e)))
    && (forall h: Holder | h.Message? || h.SyncCache? :: QueueOf(q1, h) == QueueOf(q0, h))
  }

  lemma UntouchedOne(q0: Queues, q1: Queues, q2: Queues, eids: seq<EntityId>, i: nat, rejected: seq<EntityId>, other: bool)
    requires i < |eids| && Untouched(q0, q1, eids[..i], rejected) && (!other ==> eids[i] !in rejected)
    requires forall e: EntityId | e != eids[i] || other :: QueueOf(q2, EntityQueue(e)) == QueueOf(q1, EntityQueue(e))
    requires forall h: Holder | h.Message? || h.SyncCache? :: QueueOf(q2, h) == QueueOf(q1, h)
    requires forall e | e in rejected :: e in eids[..i]
    requires other && eids[i] in eids[..i] ==> eids[i] in rejected
    ensures Untouched(q0, q2, eids[..i + 1], if other then rejected + [eids[i]] else rejected)
  {
    assert eids[..i + 1] == eids[..i] + [eids[i]];
  }

  lemma UntouchedNone(q: Queues)
    ensures Untouched(q, q, [], [])
  {
  }

  /** Entries that go while their game is not connected are not among those that game `g` has just taken in. */
  lemma OthersGo(e1: map<EntityId, Edi>, e2: map<EntityId, Edi>, e3: map<EntityId, Edi>, games: map<GameId, Gdi>,
                 g: GameId, eids: seq<EntityId>, rejected: seq<EntityId>)
    requires g in games && games[g].connected && TakenIn(e1, e2, g, eids, rejected)
    requires forall e | e in e2 && e !in e3 :: e2[e].gameid in games && !games[e2[e].gameid].connected
    ensures e2.Keys - e3.Keys <= e1.Keys && forall e | e in e2.Keys - e3.Keys :: e !in eids || e in rejected
  {
  }

  lemma WaitingNothing(queues: Queues)
    ensures forall p: Pkt :: Waiting(queues, {}, p) == 0
  {
  }

  lemma NothingConcerned(edis: map<EntityId, Edi>, queues: Queues, cache: map<GameId, Pkt>)
    ensures forall g :: !Concerned(edis, [], g)
    ensures Unshared(queues, cache, cache)
  {
  }

  /** The packets cached for the first `n` games. */
  function CachedFirst(cache: map<GameId, Pkt>, order: seq<GameId>, n: nat): map<GameId, Pkt>
    requires n <= |order|
  {
    map g | g in order[..n] && g in cache :: cache[g]
  }

  lemma CachedFirstMore(cache: map<GameId, Pkt>, order: seq<GameId>, n: nat)
    requires n < |order| && Traversal(order, cache.Keys) && order[n] in cache
    ensures order[n] !in CachedFirst(cache, order, n)
    ensures CachedFirst(cache, order, n + 1) == CachedFirst(cache, order, n)[order[n] := cache[order[n]]]
  {
    assert order[..n + 1] == order[..n] + [order[n]];
  }

  /** The packets cached for the first `n` games were dispatched and given back. */
  ghost predicate SentFirst(r0: Refs, games0: map<GameId, Gdi>, edis0: map<EntityId, Edi>,
                            r1: Refs, games1: map<GameId, Gdi>, edis1: map<EntityId, Edi>,
                            conns: map<GameId, nat>, cache: map<GameId, Pkt>, order: seq<GameId>, n: nat, now: Time)
    requires n <= |order|
  {
    && Cached(r1.queues, Rest(cache, order, n)) && Moved(Uncached(r0, order, n), r1, 0) && r0.lost <= r1.lost
    && games1.Keys == games0.Keys
    && Spread(games0, edis0, r0.queues, games1, edis1, r1.queues, conns, CachedFirst(cache, order, n), SyncInfos, now)
  }

  lemma SentNone(r: Refs, games: map<GameId, Gdi>, edis: map<EntityId, Edi>, conns: map<GameId, nat>,
                 cache: map<GameId, Pkt>, order: seq<GameId>, now: Time)
    requires Cached(r.queues, cache)
    ensures SentFirst(r, games, edis, r, games, edis, conns, cache, order, 0, now)
  {
    MovedNot(r, r, 0);
    SpreadNone(games, edis, r.queues, conns, SyncInfos, now);
    assert CachedFirst(cache, order, 0) == map[];
  }

  lemma SentBasics(r0: Refs, games0: map<GameId, Gdi>, edis0: map<EntityId, Edi>,
                   r1: Refs, games1: map<GameId, Gdi>, edis1: map<EntityId, Edi>,
                   conns: map<GameId, nat>, cache: map<GameId, Pkt>, order: seq<GameId>, n: nat, now: Time)
    requires n <= |order| && SentFirst(r0, games0, edis0, r1, games1, edis1, conns, cache, order, n, now)
    ensures Cached(r1.queues, Rest(cache, order, n)) && r0.lost <= r1.lost && games1.Keys == games0.Keys
    ensures n == 0 ==> Rest(cache, order, n) == cache
  {
  }

  /** What the next round needs to know. */
  lemma Cachewise(r0: Refs, games0: map<GameId, Gdi>, edis0: map<EntityId, Edi>,
                  r1: Refs, games1: map<GameId, Gdi>, edis1: map<EntityId, Edi>,
                  conns: map<GameId, nat>, cache: map<GameId, Pkt>, order: seq<GameId>, n: nat, now: Time)
    requires n < |order| && SentFirst(r0, games0, edis0, r1, games1, edis1, conns, cache, order, n, now) && Traversal(order, cache.Keys)
    ensures Cached(r1.queues, Rest(cache, order, n)) && order[n] in cache
    ensures order[n] in Rest(cache, order, n) && Rest(cache, order, n)[order[n]] == cache[order[n]]
  {
    RestMore(cache, order, n);
  }

  lemma SentOneMore(r0: Refs, games0: map<GameId, Gdi>, edis0: map<EntityId, Edi>,
                    r1: Refs, games1: map<GameId, Gdi>, edis1: map<EntityId, Edi>,
                    r2: Refs, games2: map<GameId, Gdi>, edis2: map<EntityId, Edi>,
                    conns: map<GameId, nat>, cache: map<GameId, Pkt>, order: seq<GameId>, n: nat, now: Time)
    requires n < |order| && SentFirst(r0, games0, edis0, r1, games1, edis1, conns, cache, order, n, now)
    requires Traversal(order, cache.Keys) && conns.Keys == games1.Keys && order[n] in games1 && order[n] in cache && r1.lost <= r2.lost
    requires Moved(r1.(queues := r1.queues[SyncCache(order[n]) := []]), r2, 0) && games2.Keys == games1.Keys
    requires Cached(r2.queues, Rest(cache, order, n) - {order[n]})
    requires DispatchedOne(games1, edis1, r1.queues, games2, edis2, r2.queues, conns, order[n], cache[order[n]], SyncInfos, now)
    ensures SentFirst(r0, games0, edis0, r2, games2, edis2, conns, cache, order, n + 1, now)
  {
    hide Moved, Cached, Spread, DispatchedOne;
    RestMore(cache, order, n);
    UncachedMore(r0, r1, r2, order, n);
    CachedFirstMore(cache, order, n);
    SpreadOne(games0, edis0, r0.queues, games1, edis1, r1.queues, games2, edis2, r2.queues, conns,
              CachedFirst(cache, order, n), order[n], cache[order[n]], SyncInfos, now);
  }
}
