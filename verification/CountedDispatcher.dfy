/**
  The dispatcher of DispatcherService.go with the packets as objects: which of its queues hold
  which packet, and where references are added and given back. The tables, and what a dispatch does
  to them, are those of `DispatcherState`.
*/
module CountedDispatching {
  import opened Bytes
  import opened Migration
  import opened DispatcherState
  import opened RefCounts
  import opened References
  import opened DispatcherSteps
  import Q = EntityQueue

  class CountedDispatcher {
    const counts: PacketCounts
    var games: map<GameId, Gdi>
    var edis: map<EntityId, Edi>
    /** The connection of each game. */
    var conns: map<GameId, nat>
    /** The position packets that wait for the next tick. */
    var entitySyncInfosToGame: map<GameId, Pkt>
    var srvdisRegisterMap: Services

    /** Counts agree with queues and queues with tables, and slices from this depth on are free. */
    ghost predicate Works(depth: nat)
      reads this, counts
    {
      counts.Valid() && conns.Keys == games.Keys && Fits(games, edis, counts.queues, depth)
    }

    ghost function R(): Refs
      reads this`edis, counts
    {
      Refs(counts.queues, edis.Keys, counts.lost)
    }

    ghost function S(): State
      reads this, counts
    {
      State(games, edis, conns, entitySyncInfosToGame, srvdisRegisterMap, R())
    }

    constructor ()
      ensures Inv() && fresh(counts) && games == map[] && edis == map[] && entitySyncInfosToGame == map[]
      ensures R() == Refs(map[], {}, multiset{})
    {
      counts := new PacketCounts();
      games, edis, conns, entitySyncInfosToGame, srvdisRegisterMap := map[], map[], map[], map[], map[];
    }

    /** The second half of gameDispatchInfo.dispatchPacket, of a packet that `from` holds. */
    method SendOrQueue(g: GameId, p: Pkt, pkt: Packet, from: Holder, ghost depth: nat)
      requires Works(depth) && g in games && p in counts.Q(from)
      modifies this`games, counts
      ensures Works(depth) && games == old(games)[g := Placed(old(games)[g], [], pkt).0]
      ensures counts.queues == PutFor(old(counts.queues), old(games)[g], g, conns[g], p) && Moved(old(R()), R(), depth)
    {
      ghost var r0 := R();
      PutKeeps(games, edis, r0, g, conns[g], p, pkt, depth);
      PutCases(games[g], counts.queues, g, conns[g], p, pkt);
      assert games == games[g := games[g]];
      hide Fits, Moved, PutFor, Placed;
      var gdi := games[g];
      if !gdi.isBlocked && gdi.connected {
        counts.Share(p, SendQueue(conns[g]), from);
      } else if |gdi.queue| < GAME_PENDING_PACKET_QUEUE_MAX_LEN {
        games := games[g := gdi.(queue := gdi.queue + [pkt])];
        counts.Share(p, GameQueue(g), from);
      }
    }

    /** cleanupEntityInfo: the entry goes, and its queue with it. */
    method CleanupEntityInfo(e: EntityId, ghost depth: nat)
      requires Works(depth) && e in edis
      modifies this`edis, counts
      ensures Works(depth) && edis == old(edis) - {e} && Moved(old(R()), R(), depth)
      ensures counts.queues == old(counts.queues)[EntityQueue(e) := []]
    {
      MovedOne(R(), e, depth);
      EntryGone(games, edis, counts.queues, e, depth);
      hide Moved, Fits;
      counts.Forget(EntityQueue(e));
      edis := edis - {e};
    }

    /** cleanupEntitiesOfGame. */
    method CleanupEntitiesOfGame(g: GameId, ghost depth: nat)
      requires Works(depth)
      modifies this`edis, counts
      ensures Works(depth) && edis == Without(old(edis), g)
      ensures Moved(old(R()), R(), depth) && SameGames(old(counts.queues), counts.queues)
    {
      SameGamesNow(counts.queues);
      hide Fits, Moved, SameGames;
      ghost var edis0, q0, r0 := edis, counts.queues, R();
      MovedNot(r0, r0, depth);
      var cleanEids := set e | e in edis && edis[e].gameid == g;
      var left := cleanEids;
      while left != {}
        invariant Works(depth) && left <= cleanEids
        invariant edis == edis0 - (cleanEids - left)
        invariant Moved(r0, R(), depth) && SameGames(q0, counts.queues)
        decreases left
      {
        var e :| e in left;
        ghost var r1 := R();
        OneCleaned(edis0, cleanEids, left, e);
        left := left - {e};
        CleanupEntityInfo(e, depth);
        SameGamesForget(q0, r1.queues, e);
        MovedTrans(r0, r1, R(), depth, depth);
      }
      AllGone(edis0, g, cleanEids);
    }

    /** clearPendingPackets. */
    method ClearPendingPackets(g: GameId, depth: nat)
      requires Works(depth) && g in games
      modifies this`games, counts
      ensures Works(depth) && games == old(games)[g := old(games)[g].(queue := [])]
      ensures Moved(old(R()), R(), depth) && SameGames(old(counts.queues)[GameQueue(g) := []], counts.queues)
    {
      hide Fits, Moved;
      DeeperFits(games, edis, counts.queues, depth);
      ghost var r0, games0 := R(), games;
      games := games[g := games[g].(queue := [])];
      counts.Take(GameQueue(g), Slice(depth));
      ReleaseSlice(depth);
      assert forall h :: QueueOf(counts.queues, h) == if h == GameQueue(g) then [] else QueueOf(r0.queues, h);
      GameDrained(games0, edis, r0, counts.queues, g, depth);
    }

    /** A loop over a local slice that releases each packet. */
    method ReleaseSlice(depth: nat)
      requires counts.Valid()
      modifies counts
      ensures counts.Valid() && counts.lost == old(counts.lost)
      ensures forall h :: QueueOf(counts.queues, h) == if h == Slice(depth) then [] else old(QueueOf(counts.queues, h))
    {
      while counts.Q(Slice(depth)) != []
        invariant counts.Valid() && counts.lost == old(counts.lost)
        invariant forall h | h != Slice(depth) :: QueueOf(counts.queues, h) == old(QueueOf(counts.queues, h))
        decreases |counts.Q(Slice(depth))|
      {
        counts.Release(Slice(depth));
      }
    }

    /** gameDispatchInfo.dispatchPacket, of a packet that `from` holds. */
    method DispatchPacket(g: GameId, p: Pkt, pkt: Packet, from: Holder, now: Time, depth: nat)
      requires Works(depth) && g in games && Fixed(from, depth) && p in counts.Q(from)
      modifies this`games, this`edis, counts
      ensures Works(depth) && Settled(old(games), old(edis), games, edis, now, old(Doomed(games, now)))
      ensures Moved(old(R()), R(), depth)
      ensures !Expired(games[g], now)
      ensures g !in old(Doomed(games, now)) ==>
        && games == old(games)[g := Dispatched(old(games)[g], [], pkt, now).0] && edis == old(edis)
        && counts.queues == PutFor(old(counts.queues), Checked(old(games)[g], now), g, conns[g], p)
      ensures g in old(Doomed(games, now)) ==>
        && (forall e | e in edis :: edis[e].gameid !in old(Doomed(games, now)))
        && (forall h | h in games :: !Expired(games[h], now))
      ensures ToGame(old(S()), S(), g, p, pkt, now, depth)
      decreases BlockedGames(games), 1
    {
      hide Settled, Doomed, BlockedGames, Expired, Checked, Placed, Dispatched, Fits, Moved, PutFor, ToGame;
      ghost var r0, games0, edis0, s0 := R(), games, edis, S();
      CheckBlocked(g, now, depth);
      FixedKept(r0, R(), depth, from);
      SettledEntries(games0, edis0, games, edis, now, Doomed(games0, now));
      PlacedSettled(games0, edis0, games, edis, g, pkt, now, Doomed(games0, now));
      ghost var r1 := R();
      SendOrQueue(g, p, pkt, from, depth);
      MovedTrans(r0, r1, R(), depth, depth);
      ToGameWhen(s0, S(), g, p, pkt, now, depth);
    }

    /** The first half: ends a freeze that ran out, and cleans up after a game that is gone. */
    method CheckBlocked(g: GameId, now: Time, depth: nat)
      requires Works(depth) && g in games
      modifies this`games, this`edis, counts
      ensures Works(depth) && Settled(old(games), old(edis), games, edis, now, old(Doomed(games, now)))
      ensures Moved(old(R()), R(), depth)
      ensures !Expired(games[g], now)
      ensures g !in old(Doomed(games, now)) ==>
        games == old(games)[g := Checked(old(games)[g], now)] && edis == old(edis) && R() == old(R())
      ensures g in old(Doomed(games, now)) ==>
        && (forall e | e in edis :: edis[e].gameid !in old(Doomed(games, now)))
        && (forall h | h in games :: !Expired(games[h], now))
      decreases BlockedGames(games), 0
    {
      hide Fits, Moved;
      MovedNot(R(), R(), depth);
      NothingSettled(games, edis, now, Doomed(games, now));
      if Expired(games[g], now) {
        ghost var games0, edis0 := games, edis;
        games := games[g := games[g].(isBlocked := false)];
        Fewer(games0, games, g, now);
        FreezeEnds(games0, edis0, counts.queues, g, now, depth);
        assert g in Doomed(games0, now) <==> !games[g].connected;
        hide Settled, Doomed, BlockedGames;
        if !games[g].connected {
          ghost var games1 := games;
          ghost var news := HandleGameDown(g, now, depth);
          SettledTrans(games0, edis0, games1, edis0, games, edis, now, {}, Doomed(games1, now) + {g});
          assert {} + (Doomed(games1, now) + {g}) == Doomed(games0, now);
        }
      }
    }

    /** handleGameDown: drop the game's entities and queue, and tell all games with a new packet. */
    method HandleGameDown(g: GameId, now: Time, depth: nat) returns (ghost news: Pkt)
      requires Works(depth) && g in games
      modifies this`games, this`edis, counts
      ensures Works(depth) && Settled(old(games), old(edis), games, edis, now, old(Doomed(games, now)) + {g})
      ensures Moved(old(R()), R(), depth)
      ensures forall e | e in edis :: edis[e].gameid != g
      ensures forall h | h in games :: !Expired(games[h], now)
      ensures forall e | e in edis :: edis[e].gameid !in old(Doomed(games, now))
      ensures
        var games1, edis1 := old(games)[g := old(games)[g].(queue := [])], Without(old(edis), g);
        Spread(games1, edis1, old(counts.queues)[GameQueue(g) := []], games, edis, counts.queues, conns,
               ToEach(games1.Keys, news), GameDown(g), now)
      decreases BlockedGames(games), 4
    {
      hide Fits, Moved, Settled, Doomed, BlockedGames, Spread, SameGames, ToEach;
      ghost var games0, edis0, r0 := games, edis, R();
      CleanupEntitiesOfGame(g, depth);
      ghost var r1 := R();
      ClearPendingPackets(g, depth);
      ghost var games1, edis1, r2 := games, edis, R();
      MovedTrans(r0, r1, r2, depth, depth);
      DownSettled(games0, edis0, g, now);
      ClearedGames(r0.queues, r1.queues, r2.queues, g);
      hide Without;
      news := TellGames(GameDown(g), {}, now, depth);
      assert games1.Keys - {} == games1.Keys;
      SpreadFrom(games1, edis1, r0.queues[GameQueue(g) := []], r2.queues, games, edis, counts.queues, conns, ToEach(games1.Keys, news), GameDown(g), now);
      SettledEntries(games1, edis1, games, edis, now, Doomed(games1, now));
      MovedTrans(r0, r2, R(), depth, depth);
      SettledTrans(games0, edis0, games1, edis1, games, edis, now, Doomed(games0, now) + {g}, Doomed(games0, now));
      SettledWider(games0, edis0, games, edis, now, Doomed(games0, now) + {g} + Doomed(games0, now), Doomed(games0, now) + {g});
    }

    /** A new packet with some news goes to all games but some, and is given back. */
    method TellGames(pkt: Packet, except: set<GameId>, now: Time, depth: nat) returns (ghost news: Pkt)
      requires Works(depth)
      modifies this`games, this`edis, counts
      ensures Works(depth) && Settled(old(games), old(edis), games, edis, now, old(Doomed(games, now)))
      ensures Moved(old(R()), R(), depth)
      ensures forall h | h in games && h !in except :: !Expired(games[h], now)
      ensures forall e | e in edis :: edis[e].gameid !in old(Doomed(games, now)) - except
      ensures games.Keys <= except ==> games == old(games) && edis == old(edis)
      ensures Spread(old(games), old(edis), old(counts.queues), games, edis, counts.queues, conns, ToEach(old(games).Keys - except, news), pkt, now)
      ensures forall h :: news !in QueueOf(old(counts.queues), h)
      decreases BlockedGames(games), 3
    {
      hide Settled, Doomed, BlockedGames, Fits, Moved, Spread, ToEach;
      ghost var r0 := R();
      DeeperFits(games, edis, counts.queues, depth);
      var p := counts.NewPacket(Slice(depth));
      SliceMoves(games, edis, r0, counts.queues, depth);
      ghost var r1 := R();
      BroadcastToGames(p, pkt, except, Slice(depth), now, depth + 1);
      MovedTrans(r0, r1, R(), depth, depth + 1);
      FixedKept(r1, R(), depth + 1, Slice(depth));
      ghost var r2 := R();
      counts.Release(Slice(depth));
      SliceMoves(games, edis, r2, counts.queues, depth);
      SpreadOther(old(games), old(edis), r0.queues, r1.queues, games, edis, r2.queues, counts.queues, conns,
                  ToEach(old(games).Keys - except, p), pkt, now);
      MovedTrans(r0, r2, R(), depth, depth);
      news := p;
    }

    /** broadcastToGames, but for some, of a packet that `from` holds, in whatever order the map is traversed. */
    method BroadcastToGames(p: Pkt, pkt: Packet, except: set<GameId>, from: Holder, now: Time, depth: nat)
      requires Works(depth) && Fixed(from, depth) && p in counts.Q(from)
      modifies this`games, this`edis, counts
      ensures Works(depth) && Settled(old(games), old(edis), games, edis, now, old(Doomed(games, now)))
      ensures Moved(old(R()), R(), depth)
      ensures forall h | h in games && h !in except :: !Expired(games[h], now)
      ensures forall e | e in edis :: edis[e].gameid !in old(Doomed(games, now)) - except
      ensures games.Keys <= except ==> games == old(games) && edis == old(edis)
      ensures Spread(old(games), old(edis), old(counts.queues), games, edis, counts.queues, conns, ToEach(old(games).Keys - except, p), pkt, now)
      decreases BlockedGames(games), 2
    {
      hide Fits, Moved, PutFor, Placed, Checked, Settled, Midway, Doomed, BlockedGames, Spread, Dispatched, DispatchedOne, ToEach;
      ghost var games0, edis0, r0 := games, edis, R();
      MovedNot(r0, r0, depth);
      var left := games.Keys - except;
      MidwayStart(games, edis, now, left + except);
      SpreadNone(games, edis, counts.queues, conns, pkt, now);
      ToEachNone(games.Keys - except - left, p);
      while left != {}
        invariant Works(depth) && left <= games.Keys && games.Keys == games0.Keys
        invariant Midway(games0, edis0, games, edis, now, left + except)
        invariant Moved(r0, R(), depth)
        invariant games.Keys <= except ==> games == games0 && edis == edis0 && left == {}
        invariant left !! except
        invariant Spread(games0, edis0, r0.queues, games, edis, counts.queues, conns, ToEach(games0.Keys - except - left, p), pkt, now)
        decreases left
      {
        ghost var games1, edis1, r1, left1 := games, edis, R(), left;
        var h :| h in left;
        left := left - {h};
        FixedKept(r0, r1, depth, from);
        MidwayEnd(games0, edis0, games, edis, now, left1 + except);
        DispatchPacket(h, p, pkt, from, now, depth);
        OneDispatched(games1, edis1, r1.queues, games, edis, counts.queues, conns, h, p, pkt, now);
        SpreadOne(games0, edis0, r0.queues, games1, edis1, r1.queues, games, edis, counts.queues, conns,
                  ToEach(games0.Keys - except - left1, p), h, p, pkt, now);
        ToEachMore(games0.Keys - except - left1, h, p);
        assert games0.Keys - except - left1 + {h} == games0.Keys - except - left;
        MovedTrans(r0, r1, R(), depth, depth);
        MidwayOne(games0, edis0, games1, edis1, games, edis, now, left1 + except, left + except, h);
        MidwayEnd(games0, edis0, games, edis, now, left + except);
      }
      assert {} + except == except;
      assert games0.Keys - except - {} == games0.Keys - except;
      MidwayEnd(games0, edis0, games, edis, now, except);
    }

    // ---------- Entities ----------

    /** dispatchPacketToGame, of a packet that `from` holds; for an unknown game there is nothing to do. */
    method DispatchPacketToGame(g: GameId, p: Pkt, pkt: Packet, from: Holder, now: Time, depth: nat)
      requires Works(depth) && Fixed(from, depth) && p in counts.Q(from)
      modifies this`games, this`edis, counts
      ensures Works(depth) && Settled(old(games), old(edis), games, edis, now, old(Doomed(games, now)))
      ensures Moved(old(R()), R(), depth)
      ensures old(g in games && games[g].connected) ==> edis == old(edis) && g in games && games[g].connected
      ensures ToGame(old(S()), S(), g, p, pkt, now, depth)
    {
      hide Settled, Doomed, Fits, Moved, PutFor, Checked, Placed, ToGame;
      GameUnknown(S(), g, p, pkt, now, depth);
      NothingSettled(games, edis, now, Doomed(games, now));
      MovedNot(R(), R(), depth);
      if g in games {
        ConnectedSafe(games, g, now);
        DispatchPacket(g, p, pkt, from, now, depth);
      }
    }

    /** The loop of unblock: the packets of a slice go to one game, and are given back one by one. */
    method SendPending(target: GameId, pending: seq<Msg>, now: Time, depth: nat)
      requires Works(depth + 1) && |counts.Q(Slice(depth))| == |pending|
      modifies this`games, this`edis, counts
      ensures Works(depth) && games.Keys == old(games).Keys && Moved(old(R()), R(), depth)
      ensures forall x | x in edis :: x in old(edis) && edis[x] == old(edis)[x]
      ensures old(target in games && games[target].connected) ==> edis == old(edis) && games[target].connected
      ensures PassedTo(old(S()), S(), target, pending, old(counts.Q(Slice(depth))), now)
    {
      hide Fits, Moved, PassedTo;
      ghost var s0, r0, games0, edis0, slice := S(), R(), games, edis, counts.Q(Slice(depth));
      MovedNot(r0, r0, depth);
      PassedNothing(s0, target, now);
      assert pending[..0] == [] && slice[..0] == [];
      for i := 0 to |pending|
        invariant Works(depth + 1) && counts.Q(Slice(depth)) == slice[i..]
        invariant games.Keys == games0.Keys && Moved(r0, R(), depth)
        invariant forall x | x in edis :: x in edis0 && edis[x] == edis0[x]
        invariant target in games0 && games0[target].connected ==> edis == edis0 && games[target].connected
        invariant PassedTo(s0, S(), target, pending[..i], slice[..i], now)
      {
        ghost var r1, s1 := R(), S();
        SendFirst(target, pending[i], now, depth);
        MovedTrans(r0, r1, R(), depth, depth);
        PassedMoreTo(s0, s1, S(), target, pending[..i], slice[..i], [pending[i]], [slice[i]], now);
        assert pending[..i + 1] == pending[..i] + [pending[i]] && slice[..i + 1] == slice[..i] + [slice[i]];
      }
      assert pending[..|pending|] == pending && slice[..|pending|] == slice;
      SliceMoves(games, edis, R(), counts.queues, depth);
    }

    /** One round of it: the first packet of the slice. */
    method SendFirst(target: GameId, msg: Msg, now: Time, depth: nat)
      requires Works(depth + 1) && counts.Q(Slice(depth)) != []
      modifies this`games, this`edis, counts
      ensures Works(depth + 1) && games.Keys == old(games).Keys && Moved(old(R()), R(), depth)
      ensures counts.Q(Slice(depth)) == old(counts.Q(Slice(depth)))[1..]
      ensures forall x | x in edis :: x in old(edis) && edis[x] == old(edis)[x]
      ensures old(target in games && games[target].connected) ==> edis == old(edis) && games[target].connected
      ensures PassedTo(old(S()), S(), target, [msg], [old(counts.Q(Slice(depth))[0])], now)
    {
      hide Settled, Doomed, Fits, Moved, PassedTo, ToGame;
      ghost var s0, r0, games0, edis0 := S(), R(), games, edis;
      var p := counts.Q(Slice(depth))[0];
      DispatchPacketToGame(target, p, ToEntity(msg), Slice(depth), now, depth + 1);
      SettledEntries(games0, edis0, games, edis, now, Doomed(games0, now));
      FixedKept(r0, R(), depth + 1, Slice(depth));
      ghost var r1, s1 := R(), S();
      PassedOneTo(s0, s1, target, msg, p, now, depth + 1);
      counts.Release(Slice(depth));
      PassedOther(s0, s0, s1, S(), target, [msg], [p], now);
      SliceMoves(games, edis, r1, counts.queues, depth);
      MovedNot(r0, r0, depth);
      MovedTrans(r0, r0, r1, depth, depth + 1);
      MovedTrans(r0, r1, R(), depth, depth);
    }

    /** What was sent on a game's connection and not flushed. */
    ghost function SentTo(g: GameId): seq<Pkt>
      reads this`conns, counts`queues
    {
      if g in conns then counts.Q(SendQueue(conns[g])) else []
    }

    /** unblock: the entry is clean before its queue is sent, during which it may vanish. */
    method UnblockEntity(e: EntityId, now: Time, depth: nat)
      requires Works(depth) && e in edis
      modifies this`games, this`edis, counts
      ensures Works(depth) && games.Keys == old(games).Keys
      ensures Moved(Unblocked(old(R()), old(edis)[e], e), R(), depth)
      ensures forall x | x in edis :: x in old(edis) && edis[x] == if x == e then UnblockedEdi(old(edis)[e]) else old(edis)[x]
      ensures
        var g := old(edis)[e].gameid;
        g in old(games) && old(games)[g].connected ==> games[g].connected && edis == old(edis)[e := UnblockedEdi(old(edis)[e])]
      ensures old(edis)[e].blockUntil == 0 ==> games == old(games) && edis == old(edis) && R() == old(R())
      ensures
        var edi := old(edis)[e];
        edi.blockUntil != 0 ==>
          PassedTo(old(S()).(edis := old(edis)[e := UnblockedEdi(edi)]), S(), edi.gameid, edi.queue, old(counts.Q(EntityQueue(e))), now)
    {
      hide Fits, Moved, PassedTo;
      MovedNot(R(), R(), depth);
      if edis[e].blockUntil != 0 {
        var target, pending := edis[e].gameid, edis[e].queue;
        ghost var r0, s0 := R(), S();
        TakeQueue(e, depth);
        ghost var r1, s1 := R(), S();
        SendPending(target, pending, now, depth);
        MovedTrans(Unblocked(r0, old(edis)[e], e), r1, R(), depth, depth);
        PassedOther(s0.(edis := s1.edis), s1, S(), S(), target, pending, old(counts.Q(EntityQueue(e))), now);
      }
    }

    /** The first half: the entry is clean, and its queue is in a slice. */
    method TakeQueue(e: EntityId, depth: nat)
      requires Works(depth) && e in edis && edis[e].blockUntil != 0
      modifies this`edis, counts
      ensures Works(depth + 1) && edis == old(edis)[e := UnblockedEdi(old(edis)[e])]
      ensures Moved(Unblocked(old(R()), old(edis)[e], e), R(), depth)
      ensures counts.Q(Slice(depth)) == old(counts.Q(EntityQueue(e))) && |counts.Q(Slice(depth))| == |old(edis)[e].queue|
      ensures SameGames(old(counts.queues), counts.queues)
    {
      hide Fits, Moved;
      ghost var r0 := R();
      DeeperFits(games, edis, counts.queues, depth);
      TakeFits(games, edis, r0, e, Edi(edis[e].gameid, 0, []), depth);
      edis := edis[e := Edi(edis[e].gameid, 0, [])];
      counts.Take(EntityQueue(e), Slice(depth));
      assert R().eids == r0.eids;
    }

    /** entityDispatchInfo.dispatchPacket, of a packet that `from` holds. */
    method DispatchPacketToEntity(msg: Msg, p: Pkt, from: Holder, now: Time, depth: nat)
      requires Works(depth) && msg.eid in edis && Fixed(from, depth) && p in counts.Q(from)
      modifies this`games, this`edis, counts
      ensures Works(depth) && games.Keys == old(games).Keys && Moved(Arrived(old(R()), old(edis)[msg.eid], msg.eid, p, now), R(), depth)
      ensures msg.eid in edis ==> edis[msg.eid] == Q.Handle(Q.State(old(edis)[msg.eid], []), Q.Packet(msg), now).edi
      ensures forall x | x in edis && x != msg.eid :: x in old(edis) && edis[x] == old(edis)[x]
      ensures
        var e, edi := msg.eid, old(edis)[msg.eid];
        edi.blockUntil != 0 && now >= edi.blockUntil ==>
          PassedTo(old(S()).(edis := old(edis)[e := UnblockedEdi(edi)]), S(), edi.gameid, edi.queue, old(counts.Q(EntityQueue(e))), now)
      ensures old(edis)[msg.eid].blockUntil == 0 ==> ToGame(old(S()), S(), old(edis)[msg.eid].gameid, p, ToEntity(msg), now, depth)
      ensures
        var e, edi := msg.eid, old(edis)[msg.eid];
        edi.blockUntil != 0 && now < edi.blockUntil ==>
          games == old(games) && R() == Arrived(old(R()), edi, e, p, now) && e in edis && edis == old(edis)[e := edis[e]]
    {
      hide Fits, Moved, Settled, Doomed, PassedTo, ToGame;
      var edi := edis[msg.eid];
      ghost var games0, edis0, r0 := games, edis, R();
      if edi.blockUntil == 0 {
        DispatchPacketToGame(edi.gameid, p, ToEntity(msg), from, now, depth);
        SettledEntries(games0, edis0, games, edis, now, Doomed(games0, now));
      } else if now < edi.blockUntil {
        QueuePacket(msg, p, from, depth);
        MovedNot(R(), R(), depth);
      } else {
        UnblockEntity(msg.eid, now, depth);
      }
    }

    /** A blocked entity: the packet waits, unless the queue is full. */
    method QueuePacket(msg: Msg, p: Pkt, from: Holder, ghost depth: nat)
      requires Works(depth) && msg.eid in edis && p in counts.Q(from)
      modifies this`edis, counts
      ensures Works(depth)
      ensures
        var e, edi := msg.eid, old(edis)[msg.eid];
        if |edi.queue| < ENTITY_PENDING_PACKET_QUEUE_MAX_LEN then
          edis == old(edis)[e := edi.(queue := edi.queue + [msg])]
          && R() == old(R()).(queues := old(counts.queues)[EntityQueue(e) := old(counts.Q(EntityQueue(e))) + [p]])
        else edis == old(edis) && R() == old(R())
    {
      hide Fits;
      var edi := edis[msg.eid];
      if |edi.queue| < ENTITY_PENDING_PACKET_QUEUE_MAX_LEN {
        ArrivedFits(games, edis, counts.queues, depth, msg.eid, p, msg);
        counts.Share(p, EntityQueue(msg.eid), from);
        edis := edis[msg.eid := edi.(queue := edi.queue + [msg])];
        assert edis.Keys == old(edis).Keys;
      }
    }

    // ---------- Handlers ----------

    /** A message is being handled: it is held by the message loop. */
    ghost predicate Handling(p: Pkt)
      reads this, counts
    {
      Works(0) && counts.Q(Message) == [p] && Cached(counts.queues, entitySyncInfosToGame)
    }

    method SetEntityDispatcherInfoForWrite(e: EntityId)
      requires Works(0)
      modifies this`edis
      ensures Works(0) && edis == old(edis)[e := EntryFor(old(edis), e)]
    {
      EntryFits(games, edis, counts.queues, 0, e, EntryFor(edis, e));
      assert e in edis ==> edis == edis[e := EntryFor(edis, e)];
      if e !in edis {
        edis := edis[e := Edi(0, 0, [])];
      }
    }

    /** A call from a game or a client, or the news for its owner that a client is gone. */
    method HandleCallEntityMethod(p: Pkt, msg: Msg, now: Time)
      requires Handling(p)
      modifies this`games, this`edis, counts
      ensures Handling(p) && old(counts.lost) <= counts.lost
      ensures Called(old(S()), S(), p, msg, now)
    {
      hide Fits, Moved, Cached, ToGame, PassedTo;
      if msg.eid in edis {
        ghost var r0, base := R(), Arrived(R(), edis[msg.eid], msg.eid, p, now);
        DispatchPacketToEntity(msg, p, Message, now, 0);
        CachedKept(base, r0, R(), entitySyncInfosToGame);
      }
    }

    /** handleQuerySpaceGameIDForMigrate: the message goes back on its connection. */
    method Reply(p: Pkt, conn: nat)
      requires Handling(p)
      modifies counts
      ensures Handling(p) && S() == WithSent(old(S()), conn, p)
    {
      ghost var q0 := counts.queues;
      counts.Share(p, SendQueue(conn), Message);
      OtherFits(games, edis, q0, counts.queues, 0);
      CachedOther(q0, counts.queues, entitySyncInfosToGame);
    }

    method HandleMigrateRequest(p: Pkt, e: EntityId, conn: nat, now: Time)
      requires Handling(p)
      modifies this`edis, counts
      ensures Handling(p) && counts.lost == old(counts.lost) && Asked(old(S()), S(), p, e, conn, now)
    {
      hide Fits, Cached;
      BlockEntity(e, DISPATCHER_MIGRATE_TIMEOUT, now);
      Reply(p, conn);
    }

    /** setEntityDispatcherInfoForWrite and blockRPC. */
    method BlockEntity(e: EntityId, duration: Time, now: Time)
      requires Works(0)
      modifies this`edis
      ensures Works(0) && edis == old(edis)[e := Q.Handle(Q.State(EntryFor(old(edis), e), []), Q.BlockRPC(duration), now).edi]
    {
      hide Fits;
      SetEntityDispatcherInfoForWrite(e);
      var until := now + duration;
      if edis[e].blockUntil < until {
        EntryFits(games, edis, counts.queues, 0, e, edis[e].(blockUntil := until));
        edis := edis[e := edis[e].(blockUntil := until)];
      }
    }

    method HandleCancelMigrate(p: Pkt, e: EntityId, now: Time)
      requires Handling(p)
      modifies this`games, this`edis, counts
      ensures Handling(p) && old(counts.lost) <= counts.lost
      ensures Cancelled(old(S()), S(), e, now)
    {
      hide Fits, Moved, Cached, PassedTo;
      if e in edis {
        ghost var r0, base := R(), Unblocked(R(), edis[e], e);
        UnblockEntity(e, now, 0);
        CachedKept(base, r0, R(), entitySyncInfosToGame);
      }
    }

    /**
      handleRealMigrate: the packet goes to the target game, and the queue after it. Its slice is
      taken ahead of the packet here: the handler still has the entry when the dispatch removes it.
    */
    method HandleRealMigrate(p: Pkt, msg: Msg, now: Time)
      requires Handling(p) && msg.RealMigrate?
      modifies this`games, this`edis, counts
      ensures Handling(p) && old(counts.lost) <= counts.lost
      ensures Migrated(old(S()), S(), p, msg, now)
    {
      hide Fits, Moved, Cached, PassedTo;
      ghost var r0, s0 := R(), S();
      SetGame(msg.eid, msg.gameid);
      ghost var s1, base := S(), Unblocked(R(), edis[msg.eid], msg.eid);
      RelayAndUnblock(p, msg, now);
      ghost var edi := EntryFor(s0.edis, msg.eid).(gameid := msg.gameid);
      PassedFromEntry(s0, s1, S(), msg.eid, edi, UnblockedEdi(edi), msg.gameid, [msg] + (if edi.blockUntil != 0 then edi.queue else []),
                      [p] + (if edi.blockUntil != 0 then QueueIn(s0, EntityQueue(msg.eid)) else []), now);
      CachedKept(base, r0, R(), entitySyncInfosToGame);
    }

    /** Its dispatch, and the unblocking of the entry that it has by then. */
    method RelayAndUnblock(p: Pkt, msg: Msg, now: Time)
      requires Works(0) && p in counts.Q(Message) && msg.RealMigrate? && msg.eid in edis && edis[msg.eid].gameid == msg.gameid
      modifies this`games, this`edis, counts
      ensures Works(0) && games.Keys == old(games).Keys && Moved(Unblocked(old(R()), old(edis)[msg.eid], msg.eid), R(), 0)
      ensures msg.eid in edis ==> edis[msg.eid] == UnblockedEdi(old(edis)[msg.eid])
      ensures
        var e, edi := msg.eid, old(edis)[msg.eid];
        PassedTo(old(S()).(edis := old(edis)[e := UnblockedEdi(edi)]), S(), msg.gameid,
                 [msg] + (if edi.blockUntil != 0 then edi.queue else []),
                 [p] + (if edi.blockUntil != 0 then old(counts.Q(EntityQueue(e))) else []), now)
    {
      hide Fits, Moved, Settled, Doomed, PassedTo, ToGame;
      var e, g := msg.eid, msg.gameid;
      var edi := edis[e];
      ghost var s0, base := S(), Unblocked(R(), edi, e);
      if edi.blockUntil != 0 {
        TakeQueue(e, 0);
        ghost var r1, s1 := R(), S();
        FixedKept(base, r1, 0, Message);
        SendAlongWith(g, p, msg, edi.queue, now);
        MovedTrans(base, r1, R(), 0, 0);
        PassedOther(s0.(edis := s1.edis), s1, S(), S(), g, [msg] + edi.queue, [p] + QueueIn(s0, EntityQueue(e)), now);
      } else {
        ghost var games1, edis1 := games, edis;
        DispatchPacketToGame(g, p, ToEntity(msg), Message, now, 0);
        SettledEntries(games1, edis1, games, edis, now, Doomed(games1, now));
        PassedOneTo(s0, S(), g, msg, p, now, 0);
        assert [msg] + [] == [msg] && [p] + [] == [p] && edis1[e := UnblockedEdi(edi)] == edis1;
      }
    }

    /** setEntityDispatcherInfoForWrite, and the entity is at another game. */
    method SetGame(e: EntityId, g: GameId)
      requires Works(0)
      modifies this`edis
      ensures Works(0) && edis == old(edis)[e := EntryFor(old(edis), e).(gameid := g)]
      ensures R() == old(R()).(eids := old(edis).Keys + {e})
    {
      hide Fits;
      SetEntityDispatcherInfoForWrite(e);
      EntryFits(games, edis, counts.queues, 0, e, edis[e].(gameid := g));
      edis := edis[e := edis[e].(gameid := g)];
    }

    /** The message goes to a game, and what is in the slice after it. */
    method SendAlongWith(g: GameId, p: Pkt, msg: Msg, pending: seq<Msg>, now: Time)
      requires Works(1) && p in counts.Q(Message) && |counts.Q(Slice(0))| == |pending|
      modifies this`games, this`edis, counts
      ensures Works(0) && Moved(old(R()), R(), 0) && games.Keys == old(games).Keys
      ensures forall x | x in edis :: x in old(edis) && edis[x] == old(edis)[x]
      ensures PassedTo(old(S()), S(), g, [msg] + pending, [p] + old(counts.Q(Slice(0))), now)
    {
      hide Fits, Moved, Settled, Doomed, PassedTo, ToGame;
      ghost var s0, r0, games0, edis0 := S(), R(), games, edis;
      DispatchPacketToGame(g, p, ToEntity(msg), Message, now, 1);
      SettledEntries(games0, edis0, games, edis, now, Doomed(games0, now));
      FixedKept(r0, R(), 1, Slice(0));
      MovedNot(r0, r0, 0);
      MovedTrans(r0, r0, R(), 0, 1);
      ghost var r1, s1 := R(), S();
      PassedOneTo(s0, s1, g, msg, p, now, 1);
      SendPending(g, pending, now, 0);
      MovedTrans(r0, r1, R(), 0, 0);
      PassedMoreTo(s0, s1, S(), g, [msg], [p], pending, QueueIn(s1, Slice(0)), now);
    }

    /** handleNotifyCreateEntity, from game `src`. */
    method HandleNotifyCreateEntity(p: Pkt, e: EntityId, src: GameId, now: Time)
      requires Handling(p)
      modifies this`games, this`edis, counts
      ensures Handling(p) && old(counts.lost) <= counts.lost
      ensures Created(old(S()), S(), e, src, now)
    {
      hide Fits, Moved, Cached, PassedTo;
      ghost var r0, s0 := R(), S();
      SetGame(e, src);
      ghost var s1, base := S(), Unblocked(R(), edis[e], e);
      UnblockEntity(e, now, 0);
      ghost var edi := EntryFor(s0.edis, e).(gameid := src);
      if edi.blockUntil != 0 {
        PassedFromEntry(s0, s1, S(), e, edi, UnblockedEdi(edi), src, edi.queue, QueueIn(s0, EntityQueue(e)), now);
      }
      CachedKept(base, r0, R(), entitySyncInfosToGame);
    }

    method HandleNotifyDestroyEntity(p: Pkt, e: EntityId)
      requires Handling(p)
      modifies this`edis, counts
      ensures Handling(p) && old(counts.lost) <= counts.lost
      ensures Destroyed(old(S()), S(), e)
    {
      hide Fits, Moved, Cached;
      ghost var r0 := R();
      MovedNot(r0, r0, 0);
      if e in edis {
        CleanupEntityInfo(e, 0);
      } else {
        assert edis == edis - {e};
      }
      CachedKept(r0, r0, R(), entitySyncInfosToGame);
    }

    /** handleLoadEntitySomewhere, with the game that was asked for or chosen, if there is one. */
    method HandleLoadEntitySomewhere(p: Pkt, e: EntityId, chosen: GameId, pkt: Packet, now: Time)
      requires Handling(p)
      modifies this`games, this`edis, counts
      ensures Handling(p) && old(counts.lost) <= counts.lost
      ensures Loaded(old(S()), S(), p, e, chosen, pkt, now)
    {
      hide Fits, Moved, Cached, Settled, Doomed, PutFor, Checked, Dispatched, ToGame, Q.Handle;
      ghost var r0, edis0 := R(), edis;
      SetEntityDispatcherInfoForWrite(e);
      assert edis.Keys == r0.eids + {e};
      ghost var base := R();
      MovedNot(base, base, 0);
      if edis[e].gameid == 0 && chosen in games {
        MapAndBlock(e, chosen, now);
        assert edis == edis0[e := edis[e]];
        DispatchPacket(chosen, p, pkt, Message, now, 0);
      }
      CachedKept(base, r0, R(), entitySyncInfosToGame);
    }

    /** The entity is loaded on game `g`, and blocked until it is there. */
    method MapAndBlock(e: EntityId, g: GameId, now: Time)
      requires Works(0) && e in edis
      modifies this`edis
      ensures Works(0) && R() == old(R())
      ensures edis == old(edis)[e := Q.Handle(Q.State(old(edis)[e].(gameid := g), []), Q.BlockRPC(DISPATCHER_LOAD_TIMEOUT), now).edi]
    {
      hide Fits;
      SetGame(e, g);
      BlockEntity(e, DISPATCHER_LOAD_TIMEOUT, now);
    }

    /** handleCreateEntitySomewhere, with the game that was asked for or chosen, if there is one. */
    method HandleCreateEntitySomewhere(p: Pkt, e: EntityId, chosen: GameId, pkt: Packet, now: Time)
      requires Handling(p)
      modifies this`games, this`edis, counts
      ensures Handling(p) && old(counts.lost) <= counts.lost
      ensures CreatedSomewhere(old(S()), S(), p, e, chosen, pkt, now)
    {
      hide Fits, Moved, Cached, Settled, Doomed, PutFor, Checked, Dispatched, ToGame;
      if chosen in games {
        ghost var r0 := R();
        SetGame(e, chosen);
        ghost var base := R();
        DispatchPacket(chosen, p, pkt, Message, now, 0);
        CachedKept(base, r0, R(), entitySyncInfosToGame);
      }
    }

    /** handleNotifyClientConnected: it panics when there is no game to boot on. */
    method HandleNotifyClientConnected(p: Pkt, chosen: GameId, pkt: Packet, now: Time) returns (ok: bool)
      requires Handling(p)
      modifies this`games, this`edis, counts
      ensures Handling(p) && old(counts.lost) <= counts.lost
      ensures (ok <==> chosen in old(games)) && ToGame(old(S()), S(), chosen, p, pkt, now, 0)
    {
      GameUnknown(S(), chosen, p, pkt, now, 0);
      hide Fits, Moved, Cached, Settled, Doomed, PutFor, Checked, Dispatched, ToGame;
      ghost var r0 := R();
      MovedNot(r0, r0, 0);
      ok := chosen in games;
      if ok {
        DispatchPacket(chosen, p, pkt, Message, now, 0);
      }
      CachedKept(r0, r0, R(), entitySyncInfosToGame);
    }

    /** The message itself goes to all games but some: handleCallNilSpaces, and a registration that is taken. */
    method PassOn(p: Pkt, pkt: Packet, except: set<GameId>, now: Time)
      requires Handling(p)
      modifies this`games, this`edis, counts
      ensures Handling(p) && old(counts.lost) <= counts.lost
      ensures PassedOn(old(S()), S(), p, pkt, except, now)
    {
      hide Fits, Moved, Cached, Settled, Doomed, Spread, ToEach;
      ghost var r0 := R();
      BroadcastToGames(p, pkt, except, Message, now, 0);
      CachedKept(r0, r0, R(), entitySyncInfosToGame);
    }

    /** A message for one gate or for all of them is sent on their connections. */
    method SendToGates(p: Pkt, gates: set<nat>)
      requires Handling(p)
      modifies counts
      ensures Handling(p) && counts.lost == old(counts.lost) && SentToAll(old(S()), S(), p, gates)
    {
      hide Fits, Cached;
      ghost var q0 := counts.queues;
      var left := gates;
      while left != {}
        invariant Handling(p) && left <= gates && counts.lost == old(counts.lost)
        invariant forall h: Holder | !(h.SendQueue? && h.conn in gates && h.conn !in left) :: counts.Q(h) == QueueOf(q0, h)
        invariant forall c | c in gates && c !in left :: counts.Q(SendQueue(c)) == QueueOf(q0, SendQueue(c)) + [p]
        decreases left
      {
        var c :| c in left;
        left := left - {c};
        Reply(p, c);
      }
    }

    /** handleStartFreezeGame, which uses the message for its answer; it panics for an unknown game. */
    method HandleStartFreezeGame(p: Pkt, g: GameId, conn: nat, now: Time) returns (ok: bool)
      requires Handling(p)
      modifies this`games, counts
      ensures Handling(p) && counts.lost == old(counts.lost) && (ok <==> g in old(games))
      ensures if ok then FreezeStarted(old(S()), S(), p, g, conn, now) else S() == old(S())
    {
      hide Cached;
      ok := g in games;
      if ok {
        games := games[g := games[g].(isBlocked := true, blockUntil := now + DISPATCHER_FREEZE_GAME_TIMEOUT)];
        hide Fits;
        Reply(p, conn);
      }
    }

    /** handleSrvdisRegister: a registration that is taken is passed on to all games. */
    method HandleSrvdisRegister(p: Pkt, srvid: Str, srvinfo: Str, force: bool, now: Time)
      requires Handling(p)
      modifies this`games, this`edis, this`srvdisRegisterMap, counts
      ensures Handling(p) && old(counts.lost) <= counts.lost
      ensures RegisterDone(old(S()), S(), p, srvid, srvinfo, force, now)
      ensures srvdisRegisterMap == Registered(old(srvdisRegisterMap), srvid, srvinfo, force)
    {
      hide Fits, Moved, Cached, Settled, Doomed, Spread, ToEach;
      MovedNot(R(), R(), 0);
      var curinfo := if srvid in srvdisRegisterMap then srvdisRegisterMap[srvid] else [];
      if force || curinfo == [] {
        srvdisRegisterMap := srvdisRegisterMap[srvid := srvinfo];
        PassOn(p, SrvdisRegister(srvid, srvinfo), {}, now);
      }
    }

    // ---------- Connections ----------

    /** handleGameDisconnected for the game's current connection. */
    method HandleGameDisconnected(g: GameId, now: Time) returns (ghost news: Pkt)
      requires Works(0) && g in games && games[g].connected
      modifies this`games, this`edis, counts
      ensures Dropped(old(S()), S(), g, now, news)
      ensures Works(0) && games.Keys == old(games).Keys && Moved(old(R()), R(), 0)
      ensures forall e | e in edis :: e in old(edis) && edis[e] == old(edis)[e]
      ensures old(games)[g].isBlocked ==> edis == old(edis) && R() == old(R())
      ensures !old(games)[g].isBlocked ==> forall e | e in edis :: edis[e].gameid != g
    {
      hide Fits, Moved, Settled, Doomed, Spread, ToEach;
      news := 0;
      ghost var r0 := R();
      MovedNot(r0, r0, 0);
      GameFits(games, edis, counts.queues, 0, g, games[g].(connected := false));
      games := games[g := games[g].(connected := false)];
      if !games[g].isBlocked {
        ghost var games1, edis1 := games, edis;
        assert games1[g := games1[g].(queue := [])].Keys == games1.Keys == old(games).Keys;
        news := HandleGameDown(g, now, 0);
        SettledEntries(games1, edis1, games, edis, now, Doomed(games1, now) + {g});
      }
    }

    /** sendPendingPackets. */
    method FlushGame(g: GameId)
      requires Works(0) && g in games
      modifies this`games, counts
      ensures Works(0) && games == old(games)[g := old(games)[g].(queue := [])]
      ensures Moved(old(R()), R(), 0) && counts.lost == old(counts.lost) && SentTo(g) == old(SentTo(g)) + old(counts.Q(GameQueue(g)))
      ensures counts.Q(GameQueue(g)) == []
    {
      hide Fits, Moved;
      ghost var games0, r0 := games, R();
      DeeperFits(games, edis, counts.queues, 0);
      games := games[g := games[g].(queue := [])];
      SendQueued(g, conns[g]);
      GameDrained(games0, edis, r0, counts.queues, g, 0);
    }

    /** The queue of a game is taken over, and each packet is sent on a connection and given back. */
    method SendQueued(g: GameId, conn: nat)
      requires counts.Valid() && counts.Q(Slice(0)) == []
      modifies counts
      ensures counts.Valid() && counts.lost == old(counts.lost) && counts.Q(GameQueue(g)) == []
      ensures counts.Q(SendQueue(conn)) == old(counts.Q(SendQueue(conn)) + counts.Q(GameQueue(g)))
      ensures forall h: Holder | h != GameQueue(g) && h != SendQueue(conn) :: QueueOf(counts.queues, h) == old(QueueOf(counts.queues, h))
    {
      counts.Take(GameQueue(g), Slice(0));
      while counts.Q(Slice(0)) != []
        invariant counts.Valid() && counts.lost == old(counts.lost) && counts.Q(GameQueue(g)) == []
        invariant counts.Q(SendQueue(conn)) + counts.Q(Slice(0)) == old(counts.Q(SendQueue(conn)) + counts.Q(GameQueue(g)))
        invariant forall h: Holder | h != Slice(0) && h != GameQueue(g) && h != SendQueue(conn) ::
                    QueueOf(counts.queues, h) == old(QueueOf(counts.queues, h))
        decreases |counts.Q(Slice(0))|
      {
        ghost var sent, slice := counts.Q(SendQueue(conn)), counts.Q(Slice(0));
        assert sent + [slice[0]] + slice[1..] == sent + slice;
        counts.Share(counts.Q(Slice(0))[0], SendQueue(conn), Slice(0));
        counts.Release(Slice(0));
      }
    }

    /** setClientProxy, of a connection: what is queued is sent, unless the game is marked as frozen. */
    method SetClientProxy(g: GameId, conn: nat)
      requires Works(0) && g in games
      modifies this`games, this`conns, counts
      ensures Works(0) && Moved(old(R()), R(), 0) && counts.lost == old(counts.lost) && conns == old(conns)[g := conn]
      ensures
        var gdi := old(games)[g].(connected := true);
        games == old(games)[g := if gdi.isBlocked then gdi else gdi.(queue := [])]
      ensures !old(games)[g].isBlocked ==> SentTo(g) == old(counts.Q(SendQueue(conn)) + counts.Q(GameQueue(g)))
      ensures counts.Q(GameQueue(g)) == if old(games)[g].isBlocked then old(counts.Q(GameQueue(g))) else []
      ensures old(games)[g].isBlocked ==> SentTo(g) == old(counts.Q(SendQueue(conn)))
    {
      hide Fits, Moved;
      MovedNot(R(), R(), 0);
      GameFits(games, edis, counts.queues, 0, g, games[g].(connected := true));
      games := games[g := games[g].(connected := true)];
      conns := conns[g := conn];
      if !games[g].isBlocked {
        FlushGame(g);
      }
    }

    /** gameDispatchInfo.unblock: a freeze is over, and what was queued during it is sent. */
    method UnblockGame(g: GameId)
      requires Works(0) && g in games && games[g].connected
      modifies this`games, counts
      ensures Works(0) && Moved(old(R()), R(), 0) && counts.lost == old(counts.lost)
      ensures old(games)[g].blockUntil == 0 ==> games == old(games) && R() == old(R())
      ensures old(games)[g].blockUntil != 0 ==>
        && games == old(games)[g := old(games)[g].(blockUntil := 0, queue := [])]
        && SentTo(g) == old(SentTo(g) + counts.Q(GameQueue(g)))
    {
      hide Fits, Moved;
      MovedNot(R(), R(), 0);
      if games[g].blockUntil != 0 {
        GameFits(games, edis, counts.queues, 0, g, games[g].(blockUntil := 0));
        games := games[g := games[g].(blockUntil := 0)];
        FlushGame(g);
      }
    }

    /** Both, when a game has just connected. */
    method ConnectGame(g: GameId, conn: nat)
      requires Works(0) && g in games
      modifies this`games, this`conns, counts
      ensures Works(0) && Moved(old(R()), R(), 0) && counts.lost == old(counts.lost) && conns == old(conns)[g := conn]
      ensures
        var gdi := old(games)[g];
        games == old(games)[g := Gdi(true, gdi.isBlocked, 0, if gdi.isBlocked && gdi.blockUntil == 0 then gdi.queue else [])]
      ensures
        var gdi := old(games)[g];
        SentTo(g) == old(counts.Q(SendQueue(conn))) + if gdi.isBlocked && gdi.blockUntil == 0 then [] else old(counts.Q(GameQueue(g)))
    {
      hide Fits, Moved;
      ghost var r0, sent := R(), counts.Q(SendQueue(conn));
      SetClientProxy(g, conn);
      ghost var r1 := R();
      UnblockGame(g);
      MovedTrans(r0, r1, R(), 0, 0);
      assert sent + [] == sent && SentTo(g) + [] == SentTo(g);
    }

    /** The first half of handleSetGameID: a new game, or a new connection of a known one. */
    method AcceptConnection(g: GameId, conn: nat, now: Time)
      requires Works(0)
      modifies this`games, this`edis, this`conns, counts
      ensures Works(0) && games.Keys == old(games).Keys + {g} && games[g].connected && conns == old(conns)[g := conn]
      ensures Moved(old(R()), R(), 0)
      ensures forall e | e in edis :: e in old(edis) && edis[e] == old(edis)[e]
      ensures g !in old(games) ==>
        games == old(games)[g := Gdi(true, false, 0, [])] && edis == old(edis)
      ensures g in old(games) && !old(games)[g].connected ==>
        var gdi := old(games)[g];
        && edis == old(edis)
        && games == old(games)[g := Gdi(true, gdi.isBlocked, 0, if gdi.isBlocked && gdi.blockUntil == 0 then gdi.queue else [])]
        && SentTo(g) == old(counts.Q(SendQueue(conn))) + if gdi.isBlocked && gdi.blockUntil == 0 then [] else old(counts.Q(GameQueue(g)))
    {
      hide Fits, Moved;
      ghost var r0 := R();
      MovedNot(r0, r0, 0);
      if g !in games {
        NewGameFits(games, edis, counts.queues, 0, g);
        games := games[g := Gdi(false, false, 0, [])];
        conns := conns[g := conn];
      } else if games[g].connected {
        ghost var news := HandleGameDisconnected(g, now);
      }
      ghost var r1 := R();
      ConnectGame(g, conn);
      MovedTrans(r0, r1, R(), 0, 0);
    }

    /** One entity a game says it holds; `other` when another game holds it. */
    method RestoreEntity(g: GameId, e: EntityId, now: Time) returns (other: bool)
      requires Works(0) && g in games && games[g].connected
      modifies this`games, this`edis, counts
      ensures Works(0) && games.Keys == old(games).Keys && games[g].connected && counts.lost == old(counts.lost)
      ensures other <==> EntryFor(old(edis), e).gameid !in {0, g}
      ensures edis == if other then old(edis) else old(edis)[e := UnblockedEdi(EntryFor(old(edis), e).(gameid := g))]
      ensures forall x: EntityId | x != e || other :: QueueOf(counts.queues, EntityQueue(x)) == old(QueueOf(counts.queues, EntityQueue(x)))
      ensures forall h: Holder | h.Message? || h.SyncCache? :: QueueOf(counts.queues, h) == old(QueueOf(counts.queues, h))
    {
      hide Fits, Moved, PassedTo;
      other := e in edis && edis[e].gameid != g && edis[e].gameid != 0;
      if !other {
        SetGame(e, g);
        ghost var base := Unblocked(R(), edis[e], e);
        UnblockEntity(e, now, 0);
        assert R().eids == base.eids;
        NothingLost(base, R(), 0);
        FixedAll(base, R(), 0);
      }
    }

    /** The loop of handleSetGameID over the entities a game says it holds. */
    method RestoreEntities(g: GameId, eids: seq<EntityId>, now: Time) returns (rejected: seq<EntityId>)
      requires Works(0) && g in games && games[g].connected && g != 0
      modifies this`games, this`edis, counts
      ensures Works(0) && games.Keys == old(games).Keys && games[g].connected && counts.lost == old(counts.lost)
      ensures TakenIn(old(edis), edis, g, eids, rejected) && Untouched(old(counts.queues), counts.queues, eids, rejected)
      ensures eids == [] ==> games == old(games) && edis == old(edis)
    {
      hide Fits, TakenIn, Untouched;
      TakenInNone(edis, g);
      UntouchedNone(counts.queues);
      rejected := [];
      for i := 0 to |eids|
        invariant Works(0) && games.Keys == old(games).Keys && games[g].connected && counts.lost == old(counts.lost)
        invariant TakenIn(old(edis), edis, g, eids[..i], rejected)
        invariant Untouched(old(counts.queues), counts.queues, eids[..i], rejected)
        invariant i == 0 ==> games == old(games) && edis == old(edis)
      {
        ghost var edis1, q1 := edis, counts.queues;
        var other := RestoreEntity(g, eids[i], now);
        TakenInOne(old(edis), edis1, edis, g, eids, i, rejected, other);
        UntouchedOne(old(counts.queues), q1, counts.queues, eids, i, rejected, other);
        if other {
          rejected := rejected + [eids[i]];
        }
      }
      assert eids[..|eids|] == eids;
    }

    /** The end of handleSetGameID: a new packet with the answer, and another with the news for all other games. */
    method AnswerSetGameID(g: GameId, conn: nat, now: Time)
      requires Works(0) && g in games
      modifies this`games, this`edis, counts
      ensures Works(0) && Moved(old(R()), R(), 0)
      ensures games.Keys == old(games).Keys && (forall g | g in games :: games[g].connected == old(games)[g].connected)
      ensures forall e | e in edis :: e in old(edis) && edis[e] == old(edis)[e]
      ensures forall e | e in old(edis) && e !in edis :: var h := old(edis)[e].gameid; h in games && !old(games)[h].connected
      ensures old(games).Keys <= {g} ==> games == old(games) && edis == old(edis)
    {
      hide Fits, Moved, Doomed, BlockedGames;
      ghost var r0 := R();
      SendNew(conn);
      ghost var r1 := R();
      DoomedDisconnected(games, now);
      ghost var news := TellGames(GameConnected(g), {g}, now, 0);
      MovedTrans(r0, r1, R(), 0, 0);
    }

    /** SendPacketRelease of a new packet: only the connection holds it in the end. */
    method SendNew(conn: nat)
      requires Works(0)
      modifies counts
      ensures Works(0) && Moved(old(R()), R(), 0)
    {
      hide Fits, Moved;
      ghost var r0 := R();
      DeeperFits(games, edis, counts.queues, 0);
      var p := counts.NewPacket(Slice(0));
      counts.Share(p, SendQueue(conn), Slice(0));
      counts.Release(Slice(0));
      SentNew(games, edis, r0, conn, p);
    }

    /**
      handleSetGameID: it panics for game 0 and on a connection that has said who it is. References are
      lost with the entries that go when an earlier connection of the game is dropped, or when telling
      the other games finds one of them down.
    */
    method HandleSetGameID(p: Pkt, g: GameId, eids: seq<EntityId>, conn: nat, identified: bool, now: Time)
      returns (ok: bool, rejected: seq<EntityId>, ghost gone: set<EntityId>)
      requires Handling(p)
      modifies this`games, this`edis, this`conns, counts
      ensures Handling(p) && old(counts.lost) <= counts.lost && (ok <==> g != 0 && !identified)
      ensures if ok then GameSet(old(S()), S(), g, eids, conn, rejected, gone) else S() == old(S())
    {
      hide Fits, Moved, Cached, Waiting, EntryFor;
      rejected, gone := [], {};
      ok := g != 0 && !identified;
      if ok {
        rejected, gone := TakeInGame(g, eids, conn, now);
      }
    }

    /** Its steps: the connection, the entities, and the answer. */
    method TakeInGame(g: GameId, eids: seq<EntityId>, conn: nat, now: Time) returns (rejected: seq<EntityId>, ghost gone: set<EntityId>)
      requires Works(0) && Cached(counts.queues, entitySyncInfosToGame) && g != 0
      modifies this`games, this`edis, this`conns, counts
      ensures Works(0) && Cached(counts.queues, entitySyncInfosToGame) && counts.Q(Message) == old(counts.Q(Message))
      ensures forall q: Pkt :: counts.lost[q] == old(counts.lost)[q] + Waiting(old(counts.queues), gone, q)
      ensures old(counts.lost) <= counts.lost && gone <= old(edis).Keys
      ensures games.Keys == old(games).Keys + {g} && games[g].connected && conns == old(conns)[g := conn]
      ensures forall e | e in eids && e !in rejected :: e in edis && edis[e].gameid == g && edis[e].blockUntil == 0
      ensures forall e | e in rejected :: e in eids && EntryFor(old(edis), e).gameid !in {0, g}
      ensures (g in old(games) ==> !old(games)[g].connected) ==>
        forall e :: e in rejected <==> e in eids && EntryFor(old(edis), e).gameid !in {0, g}
      ensures forall e | e in edis && (e !in eids || e in rejected) :: e in old(edis) && edis[e] == old(edis)[e]
      ensures old(games) == map[] && eids == [] ==>
        games == map[g := Gdi(true, false, 0, [])] && edis == old(edis)
    {
      hide Fits, Moved, Cached, Waiting, EntryFor;
      ghost var r0, edis0 := R(), edis;
      AcceptConnection(g, conn, now);
      EntriesLess(edis0, edis);
      ghost var r1 := R();
      CachedKept(r0, r0, r1, entitySyncInfosToGame);
      rejected, gone := TakeInEntities(g, eids, conn, now);
      GoneTogether(r0, r1, counts.lost, gone);
      gone := (r0.eids - r1.eids) + gone;
    }

    /** The last two of them. */
    method TakeInEntities(g: GameId, eids: seq<EntityId>, conn: nat, now: Time) returns (rejected: seq<EntityId>, ghost gone: set<EntityId>)
      requires Works(0) && Cached(counts.queues, entitySyncInfosToGame) && g != 0 && g in games && games[g].connected
      modifies this`games, this`edis, counts
      ensures Works(0) && Cached(counts.queues, entitySyncInfosToGame) && counts.Q(Message) == old(counts.Q(Message))
      ensures forall q: Pkt :: counts.lost[q] == old(counts.lost)[q] + Waiting(old(counts.queues), gone, q)
      ensures old(counts.lost) <= counts.lost && gone <= old(edis).Keys
      ensures games.Keys == old(games).Keys && games[g].connected
      ensures forall e | e in eids && e !in rejected :: e in edis && edis[e].gameid == g && edis[e].blockUntil == 0
      ensures forall e :: e in rejected <==> e in eids && EntryFor(old(edis), e).gameid !in {0, g}
      ensures forall e | e in edis && (e !in eids || e in rejected) :: e in old(edis) && edis[e] == old(edis)[e]
      ensures old(games).Keys == {g} && eids == [] ==> games == old(games) && edis == old(edis)
    {
      hide Fits, Moved, Cached, Waiting, EntryFor;
      ghost var r1, edis1 := R(), edis;
      rejected := RestoreEntities(g, eids, now);
      ghost var r2, edis2, games2 := R(), edis, games;
      CachedOther(r1.queues, r2.queues, entitySyncInfosToGame);
      AnswerSetGameID(g, conn, now);
      CachedKept(r2, r2, R(), entitySyncInfosToGame);
      OthersGo(edis1, edis2, edis, games2, g, eids, rejected);
      GoneLater(r1, r2, R());
      gone := r2.eids - R().eids;
    }

    // ---------- Position packets ----------

    /**
      handleSyncPositionYawFromClient: the packet of each game concerned is in the cache, and a new
      one is held by nothing else.
    */
    method HandleSyncPositionYawFromClient(p: Pkt, eids: seq<EntityId>)
      requires Handling(p)
      modifies this`entitySyncInfosToGame, counts
      ensures Handling(p) && counts.lost == old(counts.lost) && PositionsKept(old(S()), S(), eids)
    {
      hide Fits, Cached, Concerned, Unshared;
      NothingConcerned(edis, counts.queues, entitySyncInfosToGame);
      for i := 0 to |eids|
        invariant Handling(p) && counts.lost == old(counts.lost)
        invariant forall g :: g in entitySyncInfosToGame <==> g in old(entitySyncInfosToGame) || Concerned(edis, eids[..i], g)
        invariant forall g | g in old(entitySyncInfosToGame) :: entitySyncInfosToGame[g] == old(entitySyncInfosToGame)[g]
        invariant forall h: Holder | !h.SyncCache? :: QueueOf(counts.queues, h) == QueueOf(old(counts.queues), h)
        invariant Unshared(counts.queues, old(entitySyncInfosToGame), entitySyncInfosToGame)
      {
        forall g
          ensures Concerned(edis, eids[..i + 1], g) <==>
                    Concerned(edis, eids[..i], g) || (eids[i] in edis && edis[eids[i]].gameid == g)
        {
          ConcernedMore(edis, eids, i, g);
        }
        if eids[i] in edis {
          CacheFor(p, edis[eids[i]].gameid, old(entitySyncInfosToGame));
        }
      }
      assert eids[..|eids|] == eids;
    }

    /** A game's packet in the cache: the one that is there, or a new one. */
    method CacheFor(p: Pkt, g: GameId, ghost before: map<GameId, Pkt>)
      requires Handling(p) && Unshared(counts.queues, before, entitySyncInfosToGame)
      modifies this`entitySyncInfosToGame, counts
      ensures Handling(p) && counts.lost == old(counts.lost)
      ensures g in entitySyncInfosToGame && entitySyncInfosToGame == old(entitySyncInfosToGame)[g := entitySyncInfosToGame[g]]
      ensures g in old(entitySyncInfosToGame) ==> entitySyncInfosToGame == old(entitySyncInfosToGame) && R() == old(R())
      ensures forall h: Holder | !h.SyncCache? :: QueueOf(counts.queues, h) == QueueOf(old(counts.queues), h)
      ensures Unshared(counts.queues, before, entitySyncInfosToGame)
    {
      hide Fits, Cached, Unshared;
      if g !in entitySyncInfosToGame {
        ghost var q0 := counts.queues;
        var x := counts.NewPacket(SyncCache(g));
        NewCached(games, edis, q0, before, entitySyncInfosToGame, g, x);
        entitySyncInfosToGame := entitySyncInfosToGame[g := x];
      } else {
        assert entitySyncInfosToGame == entitySyncInfosToGame[g := entitySyncInfosToGame[g]];
      }
    }

    /** Between messages: counts, queues, tables and cache agree, and no local variable holds a packet. */
    ghost predicate Inv()
      reads this, counts
    {
      Works(0) && counts.Q(Message) == [] && Cached(counts.queues, entitySyncInfosToGame)
    }

    /**
      sendEntitySyncInfosToGames, in whatever order the cache is traversed. It panics at the first
      game that is not known: the cache is then not cleared, though packets before it were given back.
    */
    method SendEntitySyncInfosToGames(order: seq<GameId>, now: Time) returns (done: nat)
      requires Inv() && Traversal(order, entitySyncInfosToGame.Keys)
      modifies this`games, this`edis, this`entitySyncInfosToGame, counts
      ensures Works(0) && counts.Q(Message) == [] && old(counts.lost) <= counts.lost
      ensures Ticked(old(S()), S(), order, done, now) && (done == 0 || done == |order| ==> Inv())
    {
      hide Fits, Cached, Moved, Uncached, Rest, Traversal, SentFirst;
      ghost var r0, games0, edis0, cache := R(), games, edis, entitySyncInfosToGame;
      done := SendInOrder(order, now);
      SentBasics(r0, games0, edis0, R(), games, edis, conns, cache, order, done, now);
      if done == |order| {
        RestNone(cache, order);
        entitySyncInfosToGame := map[];
      }
    }

    /** Its loop. */
    method SendInOrder(order: seq<GameId>, now: Time) returns (done: nat)
      requires Inv() && Traversal(order, entitySyncInfosToGame.Keys)
      modifies this`games, this`edis, counts
      ensures Works(0) && counts.Q(Message) == []
      ensures done <= |order| && (forall i | 0 <= i < done :: order[i] in games) && (done < |order| ==> order[done] !in games)
      ensures SentFirst(old(R()), old(games), old(edis), R(), games, edis, conns, entitySyncInfosToGame, order, done, now)
    {
      hide Fits, Cached, Moved, Rest, Traversal, DispatchedOne, SentFirst;
      ghost var games0, edis0, r0, cache := games, edis, R(), entitySyncInfosToGame;
      SentNone(r0, games, edis, conns, cache, order, now);
      done := 0;
      while done < |order| && order[done] in games
        invariant done <= |order| && Works(0) && counts.Q(Message) == [] && games.Keys == games0.Keys
        invariant SentFirst(r0, games0, edis0, R(), games, edis, conns, cache, order, done, now)
        invariant forall i | 0 <= i < done :: order[i] in games
      {
        ghost var games1, edis1, r1 := games, edis, R();
        Cachewise(r0, games0, edis0, r1, games1, edis1, conns, cache, order, done, now);
        SendCached(order[done], Rest(cache, order, done), now);
        SentOneMore(r0, games0, edis0, r1, games1, edis1, R(), games, edis, conns, cache, order, done, now);
        done := done + 1;
      }
    }

    /** One round of its loop: a packet of the cache goes to its game, and is given back. */
    method SendCached(g: GameId, ghost rest: map<GameId, Pkt>, now: Time)
      requires Works(0) && counts.Q(Message) == [] && Cached(counts.queues, rest) && g in games
      requires g in rest && g in entitySyncInfosToGame && entitySyncInfosToGame[g] == rest[g]
      modifies this`games, this`edis, counts
      ensures Works(0) && counts.Q(Message) == [] && Cached(counts.queues, rest - {g})
      ensures games.Keys == old(games).Keys && old(counts.lost) <= counts.lost
      ensures Moved(old(R()).(queues := old(counts.queues)[SyncCache(g) := []]), R(), 0)
      ensures DispatchedOne(old(games), old(edis), old(counts.queues), games, edis, counts.queues, conns, g, rest[g], SyncInfos, now)
    {
      hide Fits, Moved, Cached, DispatchedOne;
      ghost var games0, edis0, r0 := games, edis, R();
      DispatchCached(g, rest, now);
      ghost var r1 := R();
      CachedReleased(games, edis, r0, r1, rest, g);
      counts.Release(SyncCache(g));
      OneOther(games0, edis0, r0.queues, games, edis, r1.queues, counts.queues, conns, g, rest[g], SyncInfos, now);
    }

    method DispatchCached(g: GameId, ghost rest: map<GameId, Pkt>, now: Time)
      requires Works(0) && counts.Q(Message) == [] && Cached(counts.queues, rest) && g in games
      requires g in rest && g in entitySyncInfosToGame && entitySyncInfosToGame[g] == rest[g]
      modifies this`games, this`edis, counts
      ensures Works(0) && counts.Q(Message) == [] && Cached(counts.queues, rest) && Moved(old(R()), R(), 0)
      ensures games.Keys == old(games).Keys && old(counts.lost) <= counts.lost
      ensures DispatchedOne(old(games), old(edis), old(counts.queues), games, edis, counts.queues, conns, g, rest[g], SyncInfos, now)
    {
      CachedAt(counts.queues, rest, g);
      hide Fits, Moved, Settled, Doomed, PutFor, Checked, Dispatched, Cached, DispatchedOne;
      ghost var r0, games0, edis0 := R(), games, edis;
      DispatchPacket(g, entitySyncInfosToGame[g], SyncInfos, SyncCache(g), now, 0);
      SettledEntries(games0, edis0, games, edis, now, Doomed(games0, now));
      OneDispatched(games0, edis0, r0.queues, games, edis, counts.queues, conns, g, rest[g], SyncInfos, now);
      CachedKept(r0, r0, R(), rest);
    }

    // ---------- The message loop ----------

    method NextMessage() returns (p: Pkt)
      requires Inv()
      modifies counts
      ensures Handling(p) && S() == Holding(old(S()), p) && counts.lost == old(counts.lost) && forall h :: p !in QueueOf(old(counts.queues), h)
    {
      hide Fits, Cached;
      ghost var q0 := counts.queues;
      p := counts.NewPacket(Message);
      OtherFits(games, edis, q0, counts.queues, 0);
      CachedOther(q0, counts.queues, entitySyncInfosToGame);
    }

    /** The message is released: if that recycles it, nothing holds it. */
    method ReleaseMessage(p: Pkt)
      requires Handling(p)
      modifies counts
      ensures Inv() && S() == LetGo(old(S()), p, true) && counts.lost == old(counts.lost)
      ensures counts.Count(p) == 0 ==> forall h :: p !in counts.Q(h)
    {
      hide Fits, Cached;
      ghost var q0 := counts.queues;
      counts.Release(Message);
      OtherFits(games, edis, q0, counts.queues, 0);
      CachedOther(q0, counts.queues, entitySyncInfosToGame);
    }

    /** A handler panicked: the reference of the message loop is never given back. */
    method ForgetMessage(p: Pkt)
      requires Handling(p)
      modifies counts
      ensures Inv() && S() == LetGo(old(S()), p, false) && counts.lost == old(counts.lost) + multiset{p}
    {
      hide Fits, Cached;
      ghost var q0 := counts.queues;
      counts.Forget(Message);
      OtherFits(games, edis, q0, counts.queues, 0);
      CachedOther(q0, counts.queues, entitySyncInfosToGame);
    }

    /** The message loop handles one message, from game `src` on connection `conn`. */
    method HandleMessage(req: Request, src: GameId, conn: nat, now: Time) returns (ghost how: How)
      requires Inv()
      modifies this, counts
      ensures Inv() && old(counts.lost) <= counts.lost
      ensures Received(old(S()), S(), req, src, conn, now, how)
    {
      hide Fits, Cached, Handled, Received, Holding, LetGo, Panics;
      ghost var s0 := S();
      var p := NextMessage();
      var ok;
      ghost var rejected, gone;
      ok, rejected, gone := Handle(p, req, src, conn, now);
      ghost var mid := S();
      how := ByMessage(p, mid, ok, rejected, gone);
      ReceivedBy(s0, req, src, conn, now, how);
      if ok {
        ReleaseMessage(p);
      } else {
        ForgetMessage(p);
      }
    }

    /** The handler of the message; one that panics is not `ok`. */
    method Handle(p: Pkt, req: Request, src: GameId, conn: nat, now: Time)
      returns (ok: bool, ghost rejected: seq<EntityId>, ghost gone: set<EntityId>)
      requires Handling(p)
      modifies this, counts
      ensures Handling(p) && old(counts.lost) <= counts.lost && ok == !Panics(old(S()), req, src)
      ensures if ok then Handled(old(S()), S(), req, src, conn, now, p, rejected, gone) else S() == old(S())
    {
      hide Fits, Cached, Moved, AboutEntityDone, Destroyed, Loaded, CreatedSomewhere, PassedOn, RegisterDone, SentToAll, PositionsKept,
           GameSet, FreezeStarted, Handling;
      GamePanics(S(), req, p, now);
      hide ToGame;
      ok, rejected, gone := true, [], {};
      match req {
        case AboutEntity(msg) => HandleAboutEntity(p, msg, src, conn, now);
        case NotifyDestroyEntity(eid) => HandleNotifyDestroyEntity(p, eid);
        case LoadEntitySomewhere(eid, chosen, pkt) => HandleLoadEntitySomewhere(p, eid, chosen, pkt, now);
        case CreateEntitySomewhere(eid, chosen, pkt) => HandleCreateEntitySomewhere(p, eid, chosen, pkt, now);
        case NotifyClientConnected(chosen, pkt) => ok := HandleNotifyClientConnected(p, chosen, pkt, now);
        case CallNilSpaces(except, pkt) => PassOn(p, pkt, {except}, now);
        case RegisterService(srvid, srvinfo, force) => HandleSrvdisRegister(p, srvid, srvinfo, force, now);
        case ToOneGate(gate) =>
          ok := gate.Some?;
          if ok {
            Reply(p, gate.value);
          }
        case ToAllGates(gates) => SendToGates(p, gates);
        case SyncPositions(eids) => HandleSyncPositionYawFromClient(p, eids);
        case SetGameID(gameid, eids, identified) => ok, rejected, gone := HandleSetGameID(p, gameid, eids, conn, identified, now);
        case StartFreezeGame => ok := HandleStartFreezeGame(p, src, conn, now);
        case Unknown =>
      }
    }

    /** The messages of the migration protocol. */
    method HandleAboutEntity(p: Pkt, msg: Msg, src: GameId, conn: nat, now: Time)
      requires Handling(p)
      modifies this`games, this`edis, counts
      ensures Handling(p) && old(counts.lost) <= counts.lost
      ensures AboutEntityDone(old(S()), S(), p, msg, src, conn, now)
    {
      hide Fits, Cached, Moved, Called, Asked, Cancelled, Migrated, Created, Handling;
      match msg
      case Call(_, _) => HandleCallEntityMethod(p, msg, now);
      case QuerySpace(_, _, _) => Reply(p, conn);
      case MigrateRequest(eid, _, _) => HandleMigrateRequest(p, eid, conn, now);
      case CancelMigrate(eid) => HandleCancelMigrate(p, eid, now);
      case RealMigrate(_, _, _) => HandleRealMigrate(p, msg, now);
      case NotifyCreate(eid) => HandleNotifyCreateEntity(p, eid, src, now);
    }

    // ---------- Runs ----------

    /** The connection of a game, or of a gate, flushes what was sent on it. */
    method Flush(conn: nat)
      requires Works(0)
      modifies counts
      ensures Works(0) && (old(Inv()) ==> Inv()) && counts.lost == old(counts.lost) && Flushed(old(S()), S(), conn)
    {
      hide Fits, Cached;
      DeeperFits(games, edis, counts.queues, 0);
      ghost var q0 := counts.queues;
      counts.Flush(conn);
      assert forall h :: counts.Q(h) == QueueOf(counts.queues, h);
      OtherFits(games, edis, q0, counts.queues, 0);
      if old(Inv()) {
        CachedOther(q0, counts.queues, entitySyncInfosToGame);
      }
    }

    /** The current connection of a game, if it has one, is gone. */
    method DropGame(g: GameId, now: Time) returns (ghost news: Pkt)
      requires Inv()
      modifies this`games, this`edis, counts
      ensures Inv() && old(counts.lost) <= counts.lost && Dropped(old(S()), S(), g, now, news)
    {
      hide Fits, Cached, Moved, Spread, Settled, Doomed, ToEach;
      ghost var r0 := R();
      news := 0;
      MovedNot(r0, r0, 0);
      if g in games && games[g].connected {
        news := HandleGameDisconnected(g, now);
      }
      CachedKept(r0, r0, R(), entitySyncInfosToGame);
    }

    /** A new packet for all games: a gate is gone, or the deployment is ready. */
    method TellAll(pkt: Packet, now: Time) returns (ghost news: Pkt)
      requires Inv()
      modifies this`games, this`edis, counts
      ensures Inv() && old(counts.lost) <= counts.lost && Announced(old(S()), S(), pkt, now, news)
    {
      hide Fits, Cached, Moved, Settled, Doomed, BlockedGames, Spread, ToEach;
      ghost var r0 := R();
      news := TellGames(pkt, {}, now, 0);
      CachedKept(r0, r0, R(), entitySyncInfosToGame);
    }

    /** One operation; it fails exactly when a tick finds a packet cached for a game that is not known. */
    method Step(op: Operation, now: Time) returns (ok: bool, ghost how: How)
      requires Inv()
      modifies this, counts
      ensures old(counts.lost) <= counts.lost && StepOf(old(S()), op, now, how, S())
      ensures (ok <==> !Fails(old(S()), op)) && (ok ==> Inv())
      ensures !ok ==> Works(0) && counts.Q(Message) == [] && how.ByTick? && how.done < |how.order| && (how.done == 0 ==> Inv())
    {
      hide Fits, Cached, Moved, Received, Dropped, Announced, Flushed;
      ok, how := true, Plainly;
      match op
      case Receive(req, src, conn) => how := HandleMessage(req, src, conn, now);
      case GameGone(gameid) =>
        ghost var news := DropGame(gameid, now);
        how := ByNews(news);
      case Announce(pkt) =>
        ghost var news := TellAll(pkt, now);
        how := ByNews(news);
      case Tick =>
        var order := Ordered(entitySyncInfosToGame.Keys);
        var done := SendEntitySyncInfosToGames(order, now);
        TickFails(old(S()), S(), order, done, now);
        ok, how := done == |order|, ByTick(order, done);
      case FlushConnection(conn) => Flush(conn);
    }

    /**
      Reference safety over runs. A run does every operation it is given, one after another, unless a
      tick fails: it stops there, and exactly there. In any case every packet that anything holds has a
      positive count, and one that no lost reference is to is recycled exactly when nothing holds it.
    */
    method Run(ops: seq<(Operation, Time)>) returns (ok: bool, ghost states: seq<State>, ghost hows: seq<How>)
      requires Inv()
      modifies this, counts
      ensures Trace(states, hows, ops) && states[0] == old(S()) && states[|hows|] == S()
      ensures ok ==> |hows| == |ops| && Smooth(states, ops, |hows|) && Inv()
      ensures !ok ==>
        var last := |hows| - 1;
        && last >= 0 && Smooth(states, ops, last) && Fails(states[last], ops[last].0)
        && Works(0) && hows[last].ByTick? && (hows[last].done == 0 ==> Inv())
      ensures old(counts.lost) <= counts.lost
      ensures forall h, p | p in counts.Q(h) :: counts.Count(p) > 0
      ensures forall p: Pkt | p !in counts.lost :: counts.Count(p) == 0 <==> forall h :: p !in counts.Q(h)
    {
      hide Fits, Cached, StepOf, Fails, Trace, Smooth;
      ok, states, hows := true, [S()], [];
      TraceNone(S(), ops);
      for i := 0 to |ops|
        invariant Trace(states, hows, ops) && |states| == i + 1 && |hows| == i && states[0] == old(S()) && states[i] == S()
        invariant Smooth(states, ops, i) && Inv() && old(counts.lost) <= counts.lost
      {
        ghost var how;
        ok, how := Step(ops[i].0, ops[i].1);
        TraceMore(states, hows, ops, S(), how);
        states, hows := states + [S()], hows + [how];
        if !ok {
          Safe(counts);
          return;
        }
      }
      Safe(counts);
    }
  }

  /** What agreement of counts and references means. */
  lemma Safe(counts: PacketCounts)
    requires counts.Valid()
    ensures forall h, p | p in counts.Q(h) :: counts.Count(p) > 0
    ensures forall p: Pkt | p !in counts.lost :: counts.Count(p) == 0 <==> forall h :: p !in counts.Q(h)
  {
    hide Balanced, CountOf;
    forall h, p | p in counts.Q(h)
      ensures counts.Count(p) > 0
    {
      HeldIsLive(counts.refcount, counts.queues, counts.lost, h, p);
    }
    forall p: Pkt | p !in counts.lost
      ensures counts.Count(p) == 0 <==> forall h :: p !in counts.Q(h)
    {
      RecycledExactly(counts.refcount, counts.queues, counts.lost, p);
      assert forall h :: counts.Q(h) == QueueOf(counts.queues, h);
    }
  }

  /**
    A run in which a cached packet is recycled: a position packet of an entity that has no game yet
    makes a tick fail, after it gave back the packet cached for game 1.
  */
  method RecycledWhileCached(now: Time) returns (d: CountedDispatcher)
    ensures d.counts.Valid() && 1 in d.entitySyncInfosToGame
    ensures d.counts.Count(d.entitySyncInfosToGame[1]) == 0
  {
    hide Fits, Moved, Cached, Unshared, Uncached, Rest, Spread, Balanced;
    d := CachedForTwo(now);
    ghost var games0, edis0, r0, cache, x := d.games, d.edis, d.R(), d.entitySyncInfosToGame, d.entitySyncInfosToGame[1];
    var done := d.SendEntitySyncInfosToGames([1, 0], now);
    ghost var r1, s1 := d.R(), d.S();
    d.Flush(0);
    assert forall h :: QueueIn(d.S(), h) == QueueOf(d.counts.queues, h) && QueueIn(s1, h) == QueueOf(r1.queues, h);
    assert forall h :: d.counts.Q(h) == QueueOf(d.counts.queues, h);
    FirstOut(r0, cache, [1, 0]);
    OnlyOnConnection(games0, edis0, r0.queues, d.games, d.edis, r1.queues, CachedFirst(cache, [1, 0], 1), SyncInfos, now);
    HeldNoMore(d.games, d.edis, r0, r1, d.counts.queues, cache);
    RecycledExactly(d.counts.refcount, d.counts.queues, d.counts.lost, x);
  }

  /** Its first part: game 1 on connection 0, and cached packets for games 1 and 0. */
  method CachedForTwo(now: Time) returns (d: CountedDispatcher)
    ensures fresh(d) && fresh(d.counts) && d.Inv() && d.games == map[1 := Gdi(true, false, 0, [])] && d.conns == map[1 := 0]
    ensures d.entitySyncInfosToGame.Keys == {0, 1} && d.counts.lost == multiset{}
    ensures forall h | h != SyncCache(1) :: d.entitySyncInfosToGame[1] !in QueueOf(d.counts.queues, h)
  {
    d := GameAndEntities(now);
    hide Fits, Moved, Cached, Balanced, Concerned;
    var p := d.NextMessage();
    ghost var edis := d.edis;
    d.HandleSyncPositionYawFromClient(p, [7, 8]);
    OfTwo(edis, 7, 8);
    OneHolder(d.counts.queues, map[], d.entitySyncInfosToGame, 1);
    d.ReleaseMessage(p);
  }

  /** The games of two entities are concerned by their positions. */
  lemma OfTwo(edis: map<EntityId, Edi>, e: EntityId, f: EntityId)
    requires e in edis && f in edis
    ensures forall g :: Concerned(edis, [e, f], g) <==> g in {edis[e].gameid, edis[f].gameid}
  {
    assert e in [e, f] && f in [e, f];
  }

  /** Game 1, with entity 7; entity 8 is known from a request to migrate only. */
  method GameAndEntities(now: Time) returns (d: CountedDispatcher)
    ensures fresh(d) && fresh(d.counts) && d.Inv() && d.games == map[1 := Gdi(true, false, 0, [])] && d.conns == map[1 := 0]
    ensures d.entitySyncInfosToGame == map[] && d.counts.lost == multiset{}
    ensures 7 in d.edis && d.edis[7].gameid == 1 && 8 in d.edis && d.edis[8].gameid == 0
  {
    d := OneGame(now);
    hide Fits, Moved, Cached, Balanced;
    var p := d.NextMessage();
    d.HandleNotifyCreateEntity(p, 7, 1, now);
    d.ReleaseMessage(p);
    p := d.NextMessage();
    d.HandleMigrateRequest(p, 8, 0, now);
    d.ReleaseMessage(p);
  }

  method OneGame(now: Time) returns (d: CountedDispatcher)
    ensures fresh(d) && fresh(d.counts) && d.Inv() && d.games == map[1 := Gdi(true, false, 0, [])] && d.conns == map[1 := 0]
    ensures d.edis == map[] && d.entitySyncInfosToGame == map[] && d.counts.lost == multiset{}
  {
    d := new CountedDispatcher();
    hide Fits, Moved, Cached, Balanced;
    var p := d.NextMessage();
    var ok, rejected;
    ghost var gone;
    ok, rejected, gone := d.HandleSetGameID(p, 1, [], 0, false, now);
    WaitingNothing(map[Message := [p]]);
    assert gone == {} && forall q: Pkt :: d.counts.lost[q] == 0;
    assert d.counts.lost == multiset{};
    d.ReleaseMessage(p);
  }

  /** In that tick packets are sent on connection 0 only. */
  lemma OnlyOnConnection(g0: map<GameId, Gdi>, e0: map<EntityId, Edi>, q0: Queues, g1: map<GameId, Gdi>, e1: map<EntityId, Edi>, q1: Queues,
                         ps: map<GameId, Pkt>, pkt: Packet, now: Time)
    requires g0 == map[1 := Gdi(true, false, 0, [])] && Spread(g0, e0, q0, g1, e1, q1, map[1 := 0], ps, pkt, now)
    ensures g1 == g0 && e1 == e0 && forall c: nat | c != 0 :: QueueOf(q1, SendQueue(c)) == QueueOf(q0, SendQueue(c))
  {
    assert Doomed(g0, now) == {};
  }

  /** What the dispatcher and its connection hold after that tick and a flush. */
  lemma HeldNoMore(games: map<GameId, Gdi>, edis: map<EntityId, Edi>, r0: Refs, r1: Refs, q2: Queues, cache: map<GameId, Pkt>)
    requires games == map[1 := Gdi(true, false, 0, [])] && Fits(games, edis, r1.queues, 0) && 1 in cache
    requires Moved(r0.(queues := r0.queues[SyncCache(1) := []]), r1, 0) && r1.eids == r0.eids
    requires Cached(r1.queues, cache - {1}) && forall c: nat | c != 0 :: QueueOf(r1.queues, SendQueue(c)) == QueueOf(r0.queues, SendQueue(c))
    requires forall h | h != SyncCache(1) :: cache[1] !in QueueOf(r0.queues, h)
    requires Cached(r0.queues, cache)
    requires QueueOf(q2, SendQueue(0)) == [] && forall h | h != SendQueue(0) :: QueueOf(q2, h) == QueueOf(r1.queues, h)
    ensures r1.lost == r0.lost && forall h :: cache[1] !in QueueOf(q2, h)
  {
    hide Fits, Cached, Moved;
    var base := r0.(queues := r0.queues[SyncCache(1) := []]);
    NothingLost(base, r1, 0);
    FixedAll(base, r1, 0);
    forall h
      ensures cache[1] !in QueueOf(q2, h)
    {
      assert h.EntityQueue? || h.Message? ==> QueueOf(base.queues, h) == QueueOf(r0.queues, h);
      StillNotHeld(games, edis, r0.queues, r1.queues, cache, h);
    }
  }

  /** Of one queue at a time. */
  lemma StillNotHeld(games: map<GameId, Gdi>, edis: map<EntityId, Edi>, q0: Queues, q1: Queues, cache: map<GameId, Pkt>, h: Holder)
    requires games == map[1 := Gdi(true, false, 0, [])] && Fits(games, edis, q1, 0) && 1 in cache
    requires h.EntityQueue? || h.Message? ==> QueueOf(q1, h) == QueueOf(q0, h)
    requires Cached(q0, cache) && Cached(q1, cache - {1}) && forall c: nat | c != 0 :: QueueOf(q1, SendQueue(c)) == QueueOf(q0, SendQueue(c))
    requires h != SyncCache(1) ==> cache[1] !in QueueOf(q0, h)
    ensures h != SendQueue(0) ==> cache[1] !in QueueOf(q1, h)
  {
    match h
    case Message =>
    case EntityQueue(_) =>
    case GameQueue(g) => assert |QueueOf(q1, h)| == 0;
    case SendQueue(c) => assert c != 0 ==> QueueOf(q1, h) == QueueOf(q0, h);
    case SyncCache(g) => assert QueueOf(q1, h) == (if g in cache && g != 1 then QueueOf(q0, h) else []);
    case Slice(k) => assert QueueOf(q1, h) == [];
  }

  /** Some order in which a map with these keys is traversed. */
  method Ordered(keys: set<GameId>) returns (order: seq<GameId>)
    ensures Traversal(order, keys)
  {
    order := [];
    var left := keys;
    while left != {}
      invariant left <= keys && Traversal(order, keys - left)
      decreases left
    {
      var g :| g in left;
      left := left - {g};
      order := order + [g];
    }
    assert keys - {} == keys;
  }
}
