/**
  What each operation of the dispatcher does to its tables, queues and references: the step
  relation that the imperative dispatcher keeps to.
*/
module DispatcherSteps {
  import opened Bytes
  import opened Migration
  import opened DispatcherState
  import opened RefCounts
  import opened References
  import Q = EntityQueue

  /** A message from a game or a gate, with what the tables of games and gates choose for it. */
  datatype Request =
    | AboutEntity(msg: Msg)
    | NotifyDestroyEntity(eid: EntityId)
    | LoadEntitySomewhere(eid: EntityId, chosen: GameId, pkt: Packet)
    | CreateEntitySomewhere(eid: EntityId, chosen: GameId, pkt: Packet)
    | NotifyClientConnected(chosen: GameId, pkt: Packet)
    | CallNilSpaces(except: GameId, pkt: Packet)
    | RegisterService(srvid: Str, srvinfo: Str, force: bool)
    | ToOneGate(gate: Option<nat>)
    | ToAllGates(gates: set<nat>)
    | SyncPositions(eids: seq<EntityId>)
    | SetGameID(gameid: GameId, eids: seq<EntityId>, identified: bool)
    | StartFreezeGame
    | Unknown

  /** What the dispatcher does: handle a message, or one of the things that need none. */
  datatype Operation =
    | Receive(req: Request, src: GameId, conn: nat)
    | GameGone(gameid: GameId)
    | Announce(pkt: Packet)
    | Tick
    | FlushConnection(conn: nat)

  datatype State = State(
    games: map<GameId, Gdi>,
    edis: map<EntityId, Edi>,
    conns: map<GameId, nat>,
    cache: map<GameId, Pkt>,
    services: Services,
    refs: Refs)

  function QueueIn(s: State, h: Holder): seq<Pkt>
  {
    QueueOf(s.refs.queues, h)
  }

  /** Only the states of games, entity entries and references differ. */
  predicate TablesMove(s0: State, s1: State)
  {
    s1 == s0.(games := s1.games, edis := s1.edis, refs := s1.refs) && s1.games.Keys == s0.games.Keys
  }

  /** One more packet was sent on a connection. */
  function WithSent(s: State, conn: nat, p: Pkt): State
  {
    s.(refs := s.refs.(queues := s.refs.queues[SendQueue(conn) := QueueIn(s, SendQueue(conn)) + [p]]))
  }

  /** gameDispatchInfo.dispatchPacket, unless there is no such game. */
  ghost predicate ToGame(s0: State, s1: State, g: GameId, p: Pkt, pkt: Packet, now: Time, depth: nat)
  {
    if g !in s0.games then s1 == s0
    else if g in Doomed(s0.games, now) then
      && TablesMove(s0, s1) && Moved(s0.refs, s1.refs, depth)
      && Settled(s0.games, s0.edis, s1.games, s1.edis, now, Doomed(s0.games, now))
      && (forall e | e in s1.edis :: s1.edis[e].gameid !in Doomed(s0.games, now))
    else
      g in s0.conns && s1 == s0.(
        games := s0.games[g := Dispatched(s0.games[g], [], pkt, now).0],
        refs := s0.refs.(queues := PutFor(s0.refs.queues, Checked(s0.games[g], now), g, s0.conns[g], p)))
  }

  lemma ToGameWhen(s0: State, s1: State, g: GameId, p: Pkt, pkt: Packet, now: Time, depth: nat)
    requires g in s0.games && g in s0.conns && TablesMove(s0, s1) && Moved(s0.refs, s1.refs, depth)
    requires s0.refs.eids == s0.edis.Keys && s1.refs.eids == s1.edis.Keys
    requires Settled(s0.games, s0.edis, s1.games, s1.edis, now, Doomed(s0.games, now))
    requires g in Doomed(s0.games, now) ==> forall e | e in s1.edis :: s1.edis[e].gameid !in Doomed(s0.games, now)
    requires g !in Doomed(s0.games, now) ==>
               && s1.games == s0.games[g := Dispatched(s0.games[g], [], pkt, now).0] && s1.edis == s0.edis
               && s1.refs.queues == PutFor(s0.refs.queues, Checked(s0.games[g], now), g, s0.conns[g], p)
    ensures ToGame(s0, s1, g, p, pkt, now, depth)
  {
    hide Moved, Settled, Doomed, PutFor, Dispatched, Checked;
    if s1.refs.eids == s0.refs.eids {
      NothingLost(s0.refs, s1.refs, depth);
    }
  }

  lemma GameUnknown(s: State, g: GameId, p: Pkt, pkt: Packet, now: Time, depth: nat)
    ensures g !in s.games ==> ToGame(s, s, g, p, pkt, now, depth)
  {
  }

  /**
    Messages for game `g`, which are the packets `ps`, were handed on to it. For a game that is not known
    nothing happens; when the game turns out to be down, entries of games that are down go.
  */
  ghost predicate PassedTo(s0: State, s1: State, g: GameId, msgs: seq<Msg>, ps: seq<Pkt>, now: Time)
  {
    && Settled(s0.games, s0.edis, s1.games, s1.edis, now, Doomed(s0.games, now)) && s1.conns == s0.conns
    && (g !in Doomed(s0.games, now) ==>
          s1.edis == s0.edis && PacketsPass(s0.games, s0.refs.queues, s1.games, s1.refs.queues, s0.conns, g, msgs, ps, now))
    && (g !in s0.games ==> s1.games == s0.games && SameGames(s0.refs.queues, s1.refs.queues))
  }

  lemma PassedNothing(s: State, g: GameId, now: Time)
    ensures PassedTo(s, s, g, [], [], now)
  {
    NothingSettled(s.games, s.edis, now, Doomed(s.games, now));
    PassNone(s.games, s.refs.queues, s.refs.queues, s.conns, g, now);
    hide Settled, PacketsPass;
  }

  /** Other queues, and the rest of the state, do not matter. */
  lemma PassedOther(s0: State, s1: State, s2: State, s3: State, g: GameId, msgs: seq<Msg>, ps: seq<Pkt>, now: Time)
    requires PassedTo(s1, s2, g, msgs, ps, now)
    requires s1.games == s0.games && s1.edis == s0.edis && s1.conns == s0.conns && SameGames(s0.refs.queues, s1.refs.queues)
    requires s3.games == s2.games && s3.edis == s2.edis && s3.conns == s2.conns && SameGames(s2.refs.queues, s3.refs.queues)
    ensures PassedTo(s0, s3, g, msgs, ps, now)
  {
    hide Settled, GoesTo;
  }

  /** The entry of an entity is set, and changed once more before messages are handed on. */
  lemma PassedFromEntry(s0: State, s1: State, s2: State, e: EntityId, edi1: Edi, edi: Edi, g: GameId, msgs: seq<Msg>, ps: seq<Pkt>, now: Time)
    requires s1.games == s0.games && s1.conns == s0.conns && s1.refs.queues == s0.refs.queues && s1.edis == s0.edis[e := edi1]
    requires PassedTo(s1.(edis := s1.edis[e := edi]), s2, g, msgs, ps, now)
    ensures PassedTo(s0.(edis := s0.edis[e := edi]), s2, g, msgs, ps, now)
  {
    assert s1.edis[e := edi] == s0.edis[e := edi];
    hide Settled, PacketsPass, Doomed;
  }

  lemma PassedOneTo(s0: State, s1: State, g: GameId, msg: Msg, p: Pkt, now: Time, depth: nat)
    requires ToGame(s0, s1, g, p, ToEntity(msg), now, depth)
    requires Settled(s0.games, s0.edis, s1.games, s1.edis, now, Doomed(s0.games, now))
    ensures PassedTo(s0, s1, g, [msg], [p], now)
  {
    hide Settled, Moved, Dispatched, PacketsPass, Doomed, PutFor, Checked;
    if g in s0.games && g !in Doomed(s0.games, now) {
      PassOne(s0.games, s0.edis, s0.refs.queues, s1.games, s1.edis, s1.refs.queues, s0.conns, g, msg, p, now);
    } else if g !in s0.games {
      PassUnknown(s0, g, [msg], [p], now);
    }
  }

  lemma PassUnknown(s: State, g: GameId, msgs: seq<Msg>, ps: seq<Pkt>, now: Time)
    requires g !in s.games
    ensures PacketsPass(s.games, s.refs.queues, s.games, s.refs.queues, s.conns, g, msgs, ps, now)
  {
  }

  lemma PassedMoreTo(s0: State, s1: State, s2: State, g: GameId, first: seq<Msg>, ps: seq<Pkt>, more: seq<Msg>, qs: seq<Pkt>, now: Time)
    requires PassedTo(s0, s1, g, first, ps, now) && PassedTo(s1, s2, g, more, qs, now)
    ensures PassedTo(s0, s2, g, first + more, ps + qs, now)
  {
    SettledTrans(s0.games, s0.edis, s1.games, s1.edis, s2.games, s2.edis, now, Doomed(s0.games, now), Doomed(s1.games, now));
    SettledWider(s0.games, s0.edis, s2.games, s2.edis, now, Doomed(s0.games, now) + Doomed(s1.games, now), Doomed(s0.games, now));
    SettledEntries(s0.games, s0.edis, s1.games, s1.edis, now, Doomed(s0.games, now));
    hide Settled, PacketsPass, Doomed;
    if g !in Doomed(s0.games, now) {
      PassMore(s0.games, s0.refs.queues, s1.games, s1.refs.queues, s2.games, s2.refs.queues, s0.conns, g, first, ps, more, qs, now);
    }
  }

  // ---------- Messages about entities ----------

  ghost predicate Called(s0: State, s1: State, p: Pkt, msg: Msg, now: Time)
  {
    var e := msg.eid;
    if e !in s0.edis then s1 == s0 else
    var edi := s0.edis[e];
    && TablesMove(s0, s1) && Moved(Arrived(s0.refs, edi, e, p, now), s1.refs, 0)
    && (e in s1.edis ==> s1.edis[e] == Q.Handle(Q.State(edi, []), Q.Packet(msg), now).edi)
    && (edi.blockUntil == 0 ==> ToGame(s0, s1, edi.gameid, p, ToEntity(msg), now, 0))
    && (edi.blockUntil != 0 && now < edi.blockUntil ==>
          s1.games == s0.games && s1.refs == Arrived(s0.refs, edi, e, p, now) && e in s1.edis && s1.edis == s0.edis[e := s1.edis[e]])
    && (edi.blockUntil != 0 && now >= edi.blockUntil ==>
          PassedTo(s0.(edis := s0.edis[e := UnblockedEdi(edi)]), s1, edi.gameid, edi.queue, QueueIn(s0, EntityQueue(e)), now))
  }

  predicate Asked(s0: State, s1: State, p: Pkt, e: EntityId, conn: nat, now: Time)
  {
    var edi := Q.Handle(Q.State(EntryFor(s0.edis, e), []), Q.BlockRPC(DISPATCHER_MIGRATE_TIMEOUT), now).edi;
    s1 == WithSent(s0, conn, p).(edis := s0.edis[e := edi], refs := WithSent(s0, conn, p).refs.(eids := s0.edis.Keys + {e}))
  }

  ghost predicate Cancelled(s0: State, s1: State, e: EntityId, now: Time)
  {
    if e !in s0.edis then s1 == s0 else
    var edi := s0.edis[e];
    && TablesMove(s0, s1) && Moved(Unblocked(s0.refs, edi, e), s1.refs, 0)
    && (e in s1.edis ==> s1.edis[e] == UnblockedEdi(edi))
    && (edi.blockUntil == 0 ==> s1 == s0)
    && (edi.blockUntil != 0 ==>
          PassedTo(s0.(edis := s0.edis[e := UnblockedEdi(edi)]), s1, edi.gameid, edi.queue, QueueIn(s0, EntityQueue(e)), now))
  }

  ghost predicate Migrated(s0: State, s1: State, p: Pkt, msg: Msg, now: Time)
    requires msg.RealMigrate?
  {
    var e, g, edi := msg.eid, msg.gameid, EntryFor(s0.edis, msg.eid);
    && TablesMove(s0, s1) && Moved(Unblocked(s0.refs.(eids := s0.edis.Keys + {e}), edi, e), s1.refs, 0)
    && (e in s1.edis ==> s1.edis[e] == UnblockedEdi(edi.(gameid := g)))
    && PassedTo(s0.(edis := s0.edis[e := UnblockedEdi(edi.(gameid := g))]), s1, g,
                [msg] + (if edi.blockUntil != 0 then edi.queue else []),
                [p] + (if edi.blockUntil != 0 then QueueIn(s0, EntityQueue(e)) else []), now)
  }

  ghost predicate Created(s0: State, s1: State, e: EntityId, src: GameId, now: Time)
  {
    var edi := EntryFor(s0.edis, e);
    && TablesMove(s0, s1) && Moved(Unblocked(s0.refs.(eids := s0.edis.Keys + {e}), edi, e), s1.refs, 0)
    && (e in s1.edis ==> s1.edis[e] == UnblockedEdi(edi.(gameid := src)))
    && (edi.blockUntil != 0 ==>
          PassedTo(s0.(edis := s0.edis[e := UnblockedEdi(edi.(gameid := src))]), s1, src, edi.queue, QueueIn(s0, EntityQueue(e)), now))
    && (edi.blockUntil == 0 ==>
          s1 == s0.(edis := s0.edis[e := edi.(gameid := src)], refs := s0.refs.(eids := s0.edis.Keys + {e})))
  }

  ghost predicate AboutEntityDone(s0: State, s1: State, p: Pkt, msg: Msg, src: GameId, conn: nat, now: Time)
  {
    match msg
    case Call(_, _) => Called(s0, s1, p, msg, now)
    case QuerySpace(_, _, _) => s1 == WithSent(s0, conn, p)
    case MigrateRequest(e, _, _) => Asked(s0, s1, p, e, conn, now)
    case CancelMigrate(e) => Cancelled(s0, s1, e, now)
    case RealMigrate(_, _, _) => Migrated(s0, s1, p, msg, now)
    case NotifyCreate(e) => Created(s0, s1, e, src, now)
  }

  ghost predicate Destroyed(s0: State, s1: State, e: EntityId)
  {
    && s1 == s0.(edis := s0.edis - {e}, refs := s1.refs) && Moved(s0.refs, s1.refs, 0)
  }

  /** An entity without a game is mapped to the game chosen, and blocked there; the message goes to that game. */
  ghost predicate Loaded(s0: State, s1: State, p: Pkt, e: EntityId, chosen: GameId, pkt: Packet, now: Time)
  {
    var edi := EntryFor(s0.edis, e);
    var s := s0.(refs := s0.refs.(eids := s0.edis.Keys + {e}));
    if edi.gameid == 0 && chosen in s0.games then
      var edi' := Q.Handle(Q.State(edi.(gameid := chosen), []), Q.BlockRPC(DISPATCHER_LOAD_TIMEOUT), now).edi;
      ToGame(s.(edis := s0.edis[e := edi']), s1, chosen, p, pkt, now, 0)
    else s1 == s.(edis := s0.edis[e := edi])
  }

  /** The entity is mapped to the game chosen, and the message goes there. */
  ghost predicate CreatedSomewhere(s0: State, s1: State, p: Pkt, e: EntityId, chosen: GameId, pkt: Packet, now: Time)
  {
    if chosen in s0.games then
      var s := s0.(refs := s0.refs.(eids := s0.edis.Keys + {e}), edis := s0.edis[e := EntryFor(s0.edis, e).(gameid := chosen)]);
      ToGame(s, s1, chosen, p, pkt, now, 0)
    else s1 == s0
  }

  // ---------- Other messages ----------

  /** A packet for all games but some. */
  ghost predicate PassedOn(s0: State, s1: State, p: Pkt, pkt: Packet, except: set<GameId>, now: Time)
  {
    && TablesMove(s0, s1) && Moved(s0.refs, s1.refs, 0)
    && Settled(s0.games, s0.edis, s1.games, s1.edis, now, Doomed(s0.games, now))
    && Spread(s0.games, s0.edis, s0.refs.queues, s1.games, s1.edis, s1.refs.queues, s1.conns, ToEach(s0.games.Keys - except, p), pkt, now)
    && (forall g | g in s1.games && g !in except :: !Expired(s1.games[g], now))
  }

  ghost predicate RegisterDone(s0: State, s1: State, p: Pkt, srvid: Str, srvinfo: Str, force: bool, now: Time)
  {
    if Taken(s0.services, srvid, force) then
      PassedOn(s0.(services := s0.services[srvid := srvinfo]), s1, p, SrvdisRegister(srvid, srvinfo), {}, now)
    else s1 == s0
  }

  ghost predicate SentToAll(s0: State, s1: State, p: Pkt, gates: set<nat>)
  {
    && s1 == s0.(refs := s1.refs) && s1.refs.eids == s0.refs.eids && s1.refs.lost == s0.refs.lost
    && (forall c | c in gates :: QueueIn(s1, SendQueue(c)) == QueueIn(s0, SendQueue(c)) + [p])
    && forall h: Holder | !(h.SendQueue? && h.conn in gates) :: QueueIn(s1, h) == QueueIn(s0, h)
  }

  ghost predicate PositionsKept(s0: State, s1: State, eids: seq<EntityId>)
  {
    && s1 == s0.(cache := s1.cache, refs := s1.refs) && s1.refs.eids == s0.refs.eids && s1.refs.lost == s0.refs.lost
    && (forall g :: g in s1.cache <==> g in s0.cache || Concerned(s0.edis, eids, g))
    && (forall g | g in s0.cache :: s1.cache[g] == s0.cache[g])
    && (forall h: Holder | !h.SyncCache? :: QueueIn(s1, h) == QueueIn(s0, h))
    && Unshared(s1.refs.queues, s0.cache, s1.cache)
  }

  /** A game connects; `gone` are the entities whose entries went on the way. */
  ghost predicate GameSet(s0: State, s1: State, g: GameId, eids: seq<EntityId>, conn: nat, rejected: seq<EntityId>, gone: set<EntityId>)
  {
    && s1 == s0.(games := s1.games, edis := s1.edis, conns := s0.conns[g := conn], refs := s1.refs)
    && s1.games.Keys == s0.games.Keys + {g} && s1.games[g].connected
    && (forall e | e in rejected :: e in eids && EntryFor(s0.edis, e).gameid !in {0, g})
    && (forall e | e in eids && e !in rejected :: e in s1.edis && s1.edis[e].gameid == g && s1.edis[e].blockUntil == 0)
    && ((g in s0.games ==> !s0.games[g].connected) ==>
          forall e :: e in rejected <==> e in eids && EntryFor(s0.edis, e).gameid !in {0, g})
    && (forall e | e in s1.edis && (e !in eids || e in rejected) :: e in s0.edis && s1.edis[e] == s0.edis[e])
    && gone <= s0.edis.Keys && (forall q: Pkt :: s1.refs.lost[q] == s0.refs.lost[q] + Waiting(s0.refs.queues, gone, q))
    && (s0.games == map[] && eids == [] ==> s1.games == map[g := Gdi(true, false, 0, [])] && s1.edis == s0.edis)
  }

  predicate FreezeStarted(s0: State, s1: State, p: Pkt, g: GameId, conn: nat, now: Time)
  {
    g in s0.games &&
    s1 == WithSent(s0, conn, p).(
      games := s0.games[g := s0.games[g].(isBlocked := true, blockUntil := now + DISPATCHER_FREEZE_GAME_TIMEOUT)])
  }

  /** How an operation went, where its outcome is not determined by the state before. */
  datatype How =
    | ByMessage(p: Pkt, mid: State, ok: bool, rejected: seq<EntityId>, gone: set<EntityId>)
    | ByNews(news: Pkt)
    | ByTick(order: seq<GameId>, done: nat)
    | Plainly

  /** Whether the handler of a message panics, in which case it has done nothing. */
  predicate Panics(s: State, req: Request, src: GameId)
  {
    match req
    case NotifyClientConnected(chosen, _) => chosen !in s.games
    case ToOneGate(gate) => gate.None?
    case SetGameID(gameid, _, identified) => gameid == 0 || identified
    case StartFreezeGame => src !in s.games
    case _ => false
  }

  /** What the handler of a message does, unless it panics. */
  ghost predicate Handled(s0: State, s1: State, req: Request, src: GameId, conn: nat, now: Time,
                          p: Pkt, rejected: seq<EntityId>, gone: set<EntityId>)
  {
    match req
    case AboutEntity(msg) => AboutEntityDone(s0, s1, p, msg, src, conn, now)
    case NotifyDestroyEntity(e) => Destroyed(s0, s1, e)
    case LoadEntitySomewhere(e, chosen, pkt) => Loaded(s0, s1, p, e, chosen, pkt, now)
    case CreateEntitySomewhere(e, chosen, pkt) => CreatedSomewhere(s0, s1, p, e, chosen, pkt, now)
    case NotifyClientConnected(chosen, pkt) => ToGame(s0, s1, chosen, p, pkt, now, 0)
    case CallNilSpaces(except, pkt) => PassedOn(s0, s1, p, pkt, {except}, now)
    case RegisterService(srvid, srvinfo, force) => RegisterDone(s0, s1, p, srvid, srvinfo, force, now)
    case ToOneGate(gate) => gate.Some? && s1 == WithSent(s0, gate.value, p)
    case ToAllGates(gates) => SentToAll(s0, s1, p, gates)
    case SyncPositions(eids) => PositionsKept(s0, s1, eids)
    case SetGameID(g, eids, _) => GameSet(s0, s1, g, eids, conn, rejected, gone)
    case StartFreezeGame => FreezeStarted(s0, s1, p, src, conn, now)
    case Unknown => s1 == s0
  }

  /** The message loop holds the message. */
  function Holding(s: State, p: Pkt): State
  {
    s.(refs := s.refs.(queues := s.refs.queues[Message := [p]]))
  }

  /** It releases the message, or, after a panic, never does. */
  function LetGo(s: State, p: Pkt, ok: bool): State
  {
    var lost := if ok then s.refs.lost else s.refs.lost + multiset{p};
    s.(refs := Refs(s.refs.queues[Message := []], s.refs.eids, lost))
  }

  ghost predicate Received(s0: State, s1: State, req: Request, src: GameId, conn: nat, now: Time, how: How)
  {
    && how.ByMessage? && (forall h :: how.p !in QueueIn(s0, h))
    && how.ok == !Panics(s0, req, src) && s1 == LetGo(how.mid, how.p, how.ok)
    && (if how.ok then Handled(Holding(s0, how.p), how.mid, req, src, conn, now, how.p, how.rejected, how.gone)
        else how.mid == Holding(s0, how.p))
  }

  // ---------- Everything else ----------

  /** The connection of a game is gone: a frozen game waits, another one is cleaned up. */
  ghost predicate Dropped(s0: State, s1: State, g: GameId, now: Time, news: Pkt)
  {
    if g !in s0.games || !s0.games[g].connected then s1 == s0 else
    var s := s0.(games := s0.games[g := s0.games[g].(connected := false)]);
    if s0.games[g].isBlocked then s1 == s else
    && TablesMove(s, s1) && Moved(s.refs, s1.refs, 0)
    && Settled(s.games, s.edis, s1.games, s1.edis, now, Doomed(s.games, now) + {g})
    && (forall e | e in s1.edis :: s1.edis[e].gameid != g)
    && Spread(s.games[g := s.games[g].(queue := [])], Without(s.edis, g), s.refs.queues[GameQueue(g) := []],
              s1.games, s1.edis, s1.refs.queues, s1.conns, ToEach(s.games.Keys, news), GameDown(g), now)
  }

  ghost predicate Announced(s0: State, s1: State, pkt: Packet, now: Time, news: Pkt)
  {
    PassedOn(s0, s1, news, pkt, {}, now) && forall h :: news !in QueueIn(s0, h)
  }

  /** A tick sends what is cached, up to the first game that is not known; the cache is cleared at the end. */
  ghost predicate Ticked(s0: State, s1: State, order: seq<GameId>, done: nat, now: Time)
  {
    && Traversal(order, s0.cache.Keys) && done <= |order|
    && (forall i | 0 <= i < done :: order[i] in s0.games) && (done < |order| ==> order[done] !in s0.games)
    && s1 == s0.(games := s1.games, edis := s1.edis, cache := if done == |order| then map[] else s0.cache, refs := s1.refs)
    && SentFirst(s0.refs, s0.games, s0.edis, s1.refs, s1.games, s1.edis, s1.conns, s0.cache, order, done, now)
  }

  ghost predicate Flushed(s0: State, s1: State, conn: nat)
  {
    && s1 == s0.(refs := s1.refs) && s1.refs.eids == s0.refs.eids && s1.refs.lost == s0.refs.lost
    && forall h :: QueueIn(s1, h) == if h == SendQueue(conn) then [] else QueueIn(s0, h)
  }

  ghost predicate StepOf(s0: State, op: Operation, now: Time, how: How, s1: State)
  {
    match op
    case Receive(req, src, conn) => Received(s0, s1, req, src, conn, now, how)
    case GameGone(g) => how.ByNews? && Dropped(s0, s1, g, now, how.news)
    case Announce(pkt) => how.ByNews? && Announced(s0, s1, pkt, now, how.news)
    case Tick => how.ByTick? && Ticked(s0, s1, how.order, how.done, now)
    case FlushConnection(conn) => Flushed(s0, s1, conn)
  }

  /** A tick fails: a packet is cached for a game that is not known. */
  predicate Fails(s: State, op: Operation)
  {
    op.Tick? && !(s.cache.Keys <= s.games.Keys)
  }

  lemma TickFails(s0: State, s1: State, order: seq<GameId>, done: nat, now: Time)
    requires Ticked(s0, s1, order, done, now)
    ensures Fails(s0, Tick) <==> done < |order|
  {
    hide SentFirst;
    if done < |order| {
      assert order[done] in order;
    } else {
      forall g | g in s0.cache
        ensures g in s0.games
      {
        assert g in order;
      }
    }
  }

  lemma GamePanics(s: State, req: Request, p: Pkt, now: Time)
    ensures req.NotifyClientConnected? && req.chosen !in s.games ==> ToGame(s, s, req.chosen, p, req.pkt, now, 0)
    ensures req.NotifyClientConnected? && req.chosen !in s.games ==>
              forall s1 :: ToGame(s, s1, req.chosen, p, req.pkt, now, 0) ==> s1 == s
  {
  }

  /** A run of operations, from the first state to the last. */
  ghost predicate Trace(states: seq<State>, hows: seq<How>, ops: seq<(Operation, Time)>)
  {
    && |states| == |hows| + 1 && |hows| <= |ops|
    && forall i | 0 <= i < |hows| :: StepOf(states[i], ops[i].0, ops[i].1, hows[i], states[i + 1])
  }

  /** None of the first `n` operations is a tick that fails. */
  predicate Smooth(states: seq<State>, ops: seq<(Operation, Time)>, n: nat)
  {
    n <= |states| && n <= |ops| && forall i | 0 <= i < n :: !Fails(states[i], ops[i].0)
  }

  lemma TraceNone(s: State, ops: seq<(Operation, Time)>)
    ensures Trace([s], [], ops) && Smooth([s], ops, 0)
  {
  }

  lemma TraceMore(states: seq<State>, hows: seq<How>, ops: seq<(Operation, Time)>, s: State, how: How)
    requires Trace(states, hows, ops) && |hows| < |ops| && Smooth(states, ops, |hows|)
    requires StepOf(states[|hows|], ops[|hows|].0, ops[|hows|].1, how, s)
    ensures Trace(states + [s], hows + [how], ops) && Smooth(states + [s], ops, |hows|)
    ensures !Fails(states[|hows|], ops[|hows|].0) ==> Smooth(states + [s], ops, |hows| + 1)
    ensures |states + [s]| == |states| + 1 && (states + [s])[0] == states[0] && (states + [s])[|states|] == s
    ensures (states + [s])[|hows|] == states[|hows|] && |hows + [how]| == |hows| + 1 && (hows + [how])[|hows|] == how
  {
    hide StepOf, Fails;
  }

  /** A message that was handled, or whose handler panicked, and that was let go. */
  lemma ReceivedBy(s0: State, req: Request, src: GameId, conn: nat, now: Time, how: How)
    requires how.ByMessage? && (forall h :: how.p !in QueueOf(s0.refs.queues, h)) && how.ok == !Panics(Holding(s0, how.p), req, src)
    requires if how.ok then Handled(Holding(s0, how.p), how.mid, req, src, conn, now, how.p, how.rejected, how.gone)
             else how.mid == Holding(s0, how.p)
    ensures Received(s0, LetGo(how.mid, how.p, how.ok), req, src, conn, now, how)
  {
    hide Handled;
  }

  // ---------- What runs amount to ----------

  /** The services registered after some operations. */
  function ServicesAfter(services: Services, ops: seq<(Operation, Time)>): Services
  {
    if |ops| == 0 then services else
    var n := |ops| - 1;
    var before := ServicesAfter(services, ops[..n]);
    match ops[n].0
    case Receive(RegisterService(srvid, srvinfo, force), _, _) => Registered(before, srvid, srvinfo, force)
    case _ => before
  }

  /** The games that have said who they are. */
  function GamesAfter(games: set<GameId>, ops: seq<(Operation, Time)>): set<GameId>
  {
    if |ops| == 0 then games else
    var n := |ops| - 1;
    var before := GamesAfter(games, ops[..n]);
    match ops[n].0
    case Receive(SetGameID(g, _, identified), _, _) => if g != 0 && !identified then before + {g} else before
    case _ => before
  }

  lemma ToGameAmounts(s0: State, s1: State, g: GameId, p: Pkt, pkt: Packet, now: Time)
    requires ToGame(s0, s1, g, p, pkt, now, 0)
    ensures s1.services == s0.services && s1.games.Keys == s0.games.Keys
  {
    hide Moved, PutFor, Dispatched;
  }

  lemma AboutAmounts(s0: State, s1: State, p: Pkt, msg: Msg, src: GameId, conn: nat, now: Time)
    requires AboutEntityDone(s0, s1, p, msg, src, conn, now)
    ensures s1.services == s0.services && s1.games.Keys == s0.games.Keys
  {
    hide Moved, ToGame, Arrived, Unblocked, PassedTo;
  }

  lemma HandledAmounts(s0: State, s1: State, req: Request, src: GameId, conn: nat, now: Time,
                       p: Pkt, rejected: seq<EntityId>, gone: set<EntityId>)
    requires Handled(s0, s1, req, src, conn, now, p, rejected, gone)
    ensures s1.services == if req.RegisterService? then Registered(s0.services, req.srvid, req.srvinfo, req.force) else s0.services
    ensures s1.games.Keys == if req.SetGameID? then s0.games.Keys + {req.gameid} else s0.games.Keys
  {
    hide Moved, Spread, Settled, Unshared, Waiting, AboutEntityDone, ToGame;
    match req
    case AboutEntity(msg) => AboutAmounts(s0, s1, p, msg, src, conn, now);
    case LoadEntitySomewhere(e, chosen, pkt) =>
      if EntryFor(s0.edis, e).gameid == 0 && chosen in s0.games {
        var edi := Q.Handle(Q.State(EntryFor(s0.edis, e).(gameid := chosen), []), Q.BlockRPC(DISPATCHER_LOAD_TIMEOUT), now).edi;
        var s := s0.(refs := s0.refs.(eids := s0.edis.Keys + {e}));
        ToGameAmounts(s.(edis := s0.edis[e := edi]), s1, chosen, p, pkt, now);
      }
    case CreateEntitySomewhere(e, chosen, pkt) =>
      if chosen in s0.games {
        var s := s0.(refs := s0.refs.(eids := s0.edis.Keys + {e}), edis := s0.edis[e := EntryFor(s0.edis, e).(gameid := chosen)]);
        ToGameAmounts(s, s1, chosen, p, pkt, now);
      }
    case NotifyClientConnected(chosen, pkt) => ToGameAmounts(s0, s1, chosen, p, pkt, now);
    case _ =>
  }

  lemma ReceivedAmounts(s0: State, s1: State, req: Request, src: GameId, conn: nat, now: Time, how: How)
    requires Received(s0, s1, req, src, conn, now, how)
    ensures s1.services == if req.RegisterService? then Registered(s0.services, req.srvid, req.srvinfo, req.force) else s0.services
    ensures s1.games.Keys == if req.SetGameID? && !Panics(s0, req, src) then s0.games.Keys + {req.gameid} else s0.games.Keys
  {
    hide Handled, Registered;
    if how.ok {
      HandledAmounts(Holding(s0, how.p), how.mid, req, src, conn, now, how.p, how.rejected, how.gone);
    }
  }

  lemma StepAmounts(s0: State, op: Operation, now: Time, how: How, s1: State)
    requires StepOf(s0, op, now, how, s1)
    ensures
      s1.services ==
        if op.Receive? && op.req.RegisterService? then Registered(s0.services, op.req.srvid, op.req.srvinfo, op.req.force)
        else s0.services
    ensures
      s1.games.Keys ==
        if op.Receive? && op.req.SetGameID? && !Panics(s0, op.req, op.src) then s0.games.Keys + {op.req.gameid} else s0.games.Keys
  {
    hide Moved, Spread, Settled, Received, SentFirst, Registered, Panics;
    if op.Receive? {
      ReceivedAmounts(s0, s1, op.req, op.src, op.conn, now, how);
    } else if op.Tick? {
      SentBasics(s0.refs, s0.games, s0.edis, s1.refs, s1.games, s1.edis, s1.conns, s0.cache, how.order, how.done, now);
    }
  }

  /** After any run the registry and the games known are what the messages ask for. */
  lemma {:induction false} TraceAmounts(states: seq<State>, hows: seq<How>, ops: seq<(Operation, Time)>)
    requires Trace(states, hows, ops)
    ensures states[|hows|].services == ServicesAfter(states[0].services, ops[..|hows|])
    ensures states[|hows|].games.Keys == GamesAfter(states[0].games.Keys, ops[..|hows|])
    decreases |hows|
  {
    hide StepOf;
    if |hows| > 0 {
      var n := |hows| - 1;
      TraceAmounts(states[..|hows|], hows[..n], ops);
      StepAmounts(states[n], ops[n].0, ops[n].1, hows[n], states[n + 1]);
      assert ops[..|hows|][..n] == ops[..n];
    }
  }
}
