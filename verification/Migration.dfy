/**
  Entity migration as a step system: games and one dispatcher exchanging messages over FIFO
  channels while every game stays connected. The handlers are those of Entity.go,
  EntityManager.go and DispatcherService.go; time is an input of each step.
*/
module Migration {
  import opened Bytes

  type EntityId = nat
  type GameId = nat
  type CallId = nat
  type Time = nat

  /** What a clock reads; zero is the time of deadlines that are not set. */
  type Instant = t: nat | t > 0 witness 1

  const ENTITY_PENDING_PACKET_QUEUE_MAX_LEN := 1000
  const DISPATCHER_MIGRATE_TIMEOUT: Time := 60_000_000_000
  const DISPATCHER_LOAD_TIMEOUT: Time := 60_000_000_000
  const ENTER_SPACE_REQUEST_TIMEOUT: Time := 120_000_000_000

  /** A packet about the entity `eid`. Requests travel up and come back down as their own acks. */
  datatype Msg =
    | Call(eid: EntityId, id: CallId)
    | QuerySpace(eid: EntityId, space: EntityId, gameid: GameId)
    | MigrateRequest(eid: EntityId, space: EntityId, gameid: GameId)
    | CancelMigrate(eid: EntityId)
    | RealMigrate(eid: EntityId, gameid: GameId, data: seq<CallId>)
    | NotifyCreate(eid: EntityId)

  // ---------- Dispatcher ----------

  /** entityDispatchInfo; time zero means "not blocked". */
  datatype Edi = Edi(gameid: GameId, blockUntil: Time, queue: seq<Msg>)

  /** The dispatcher's entity table, the channels to the games, and which calls it took in. */
  datatype Dispatcher = Dispatcher(
    edis: map<EntityId, Edi>,
    down: map<GameId, seq<Msg>>,
    accepted: map<EntityId, seq<CallId>>)

  function History(m: map<EntityId, seq<CallId>>, e: EntityId): seq<CallId>
  {
    if e in m then m[e] else []
  }

  function Record(m: map<EntityId, seq<CallId>>, msg: Msg): map<EntityId, seq<CallId>>
  {
    if msg.Call? then m[msg.eid := History(m, msg.eid) + [msg.id]] else m
  }

  /** dispatchPacketToGame for each of `msgs`; packets to unknown games are dropped. */
  function SendToGame(d: Dispatcher, g: GameId, msgs: seq<Msg>): Dispatcher
  {
    if g in d.down then d.(down := d.down[g := d.down[g] + msgs]) else d
  }

  /** setEntityDispatcherInfoForWrite. */
  function ForWrite(d: Dispatcher, e: EntityId): (r: Dispatcher)
    ensures e in r.edis
  {
    if e in d.edis then d else d.(edis := d.edis[e := Edi(0, 0, [])])
  }

  function SetEdi(d: Dispatcher, e: EntityId, edi: Edi): Dispatcher
  {
    d.(edis := d.edis[e := edi])
  }

  /** unblock: the queued packets go to the entity's game. */
  function Unblock(d: Dispatcher, e: EntityId): Dispatcher
    requires e in d.edis
  {
    var edi := d.edis[e];
    if edi.blockUntil == 0 then d
    else SendToGame(SetEdi(d, e, Edi(edi.gameid, 0, [])), edi.gameid, edi.queue)
  }

  /** blockRPC: the deadline only grows. */
  function BlockRPC(d: Dispatcher, e: EntityId, now: Time, duration: Time): Dispatcher
    requires e in d.edis
  {
    var edi := d.edis[e];
    if edi.blockUntil < now + duration then SetEdi(d, e, edi.(blockUntil := now + duration)) else d
  }

  /** entityDispatchInfo.dispatchPacket: forwarded, queued, refused, or lost to an expired block. */
  function DispatchPacket(d: Dispatcher, msg: Msg, now: Time): Dispatcher
    requires msg.eid in d.edis
  {
    var edi := d.edis[msg.eid];
    if edi.blockUntil == 0 then
      SendToGame(d, edi.gameid, [msg]).(accepted := Record(d.accepted, msg))
    else if now < edi.blockUntil then
      if |edi.queue| < ENTITY_PENDING_PACKET_QUEUE_MAX_LEN then
        SetEdi(d, msg.eid, edi.(queue := edi.queue + [msg])).(accepted := Record(d.accepted, msg))
      else d
    else Unblock(d, msg.eid)
  }

  function HandleCallEntityMethod(d: Dispatcher, msg: Msg, now: Time): Dispatcher
  {
    if msg.eid in d.edis then DispatchPacket(d, msg, now) else d
  }

  function HandleQuerySpace(d: Dispatcher, src: GameId, msg: Msg): Dispatcher
    requires msg.QuerySpace?
  {
    var gameid := if msg.space in d.edis then d.edis[msg.space].gameid else 0;
    SendToGame(d, src, [QuerySpace(msg.eid, msg.space, gameid)])
  }

  function HandleMigrateRequest(d: Dispatcher, src: GameId, msg: Msg, now: Time): Dispatcher
    requires msg.MigrateRequest?
  {
    SendToGame(BlockRPC(ForWrite(d, msg.eid), msg.eid, now, DISPATCHER_MIGRATE_TIMEOUT), src, [msg])
  }

  function HandleCancelMigrate(d: Dispatcher, msg: Msg): Dispatcher
  {
    if msg.eid in d.edis then Unblock(d, msg.eid) else d
  }

  function HandleRealMigrate(d: Dispatcher, msg: Msg): Dispatcher
    requires msg.RealMigrate?
  {
    var d1 := ForWrite(d, msg.eid);
    var d2 := SetEdi(d1, msg.eid, d1.edis[msg.eid].(gameid := msg.gameid));
    Unblock(SendToGame(d2, msg.gameid, [msg]), msg.eid)
  }

  function HandleNotifyCreate(d: Dispatcher, src: GameId, msg: Msg): Dispatcher
  {
    var d1 := ForWrite(d, msg.eid);
    Unblock(SetEdi(d1, msg.eid, d1.edis[msg.eid].(gameid := src)), msg.eid)
  }

  /** The message loop: one packet from the connection `src`. */
  function DispatcherHandle(d: Dispatcher, src: GameId, msg: Msg, now: Time): Dispatcher
  {
    match msg
    case Call(_, _) => HandleCallEntityMethod(d, msg, now)
    case QuerySpace(_, _, _) => HandleQuerySpace(d, src, msg)
    case MigrateRequest(_, _, _) => HandleMigrateRequest(d, src, msg, now)
    case CancelMigrate(_) => HandleCancelMigrate(d, msg)
    case RealMigrate(_, _, _) => HandleRealMigrate(d, msg)
    case NotifyCreate(_) => HandleNotifyCreate(d, src, msg)
  }

  // ---------- Games ----------

  /**
    An entity; `data` stands for its attributes, a function of the calls executed on it. `posted`
    says that the entry into a space of the same game is in the game's post queue.
  */
  datatype Entity = Entity(data: seq<CallId>, space: EntityId, requestTime: Time, requestIsSent: bool, posted: bool := false)

  /** What a handler does at a game: the new table, and the packets sent to the dispatcher. */
  datatype Outcome = Outcome(table: map<EntityId, Entity>, sent: seq<Msg>)

  predicate IsEnteringSpace(entity: Entity, now: Time)
  {
    now < entity.requestTime + ENTER_SPACE_REQUEST_TIMEOUT
  }

  function CancelEnterSpace(table: map<EntityId, Entity>, e: EntityId): Outcome
    requires e in table
  {
    var entity := table[e];
    Outcome(table[e := entity.(space := 0, requestTime := 0, requestIsSent := false)], if entity.requestIsSent then [CancelMigrate(e)] else [])
  }

  /** EnterSpace of another space; a space of the same game (`here`) is entered when the post queue is served. */
  function EnterSpace(table: map<EntityId, Entity>, e: EntityId, space: EntityId, here: bool, now: Time): Outcome
    requires e in table
  {
    if IsEnteringSpace(table[e], now) then Outcome(table, [])
    else if here then Outcome(table[e := table[e].(space := space, requestTime := now, posted := true)], [])
    else Outcome(table[e := table[e].(space := space, requestTime := now)], [QuerySpace(e, space, 0)])
  }

  /** The posted half of enterLocalSpace. */
  function FinishEnterSpace(table: map<EntityId, Entity>, e: EntityId): Outcome
    requires e in table
  {
    CancelEnterSpace(table[e := table[e].(posted := false)], e)
  }

  function OnQuerySpaceAck(table: map<EntityId, Entity>, msg: Msg, now: Time): Outcome
    requires msg.QuerySpace?
  {
    if msg.eid !in table then Outcome(table, [])
    else if !IsEnteringSpace(table[msg.eid], now) then Outcome(table, [])
    else if table[msg.eid].space != msg.space then Outcome(table, [])
    else if msg.gameid == 0 then CancelEnterSpace(table, msg.eid)
    else
      Outcome(table[msg.eid := table[msg.eid].(requestIsSent := true)],
              [MigrateRequest(msg.eid, msg.space, msg.gameid)])
  }

  function OnMigrateRequestAck(table: map<EntityId, Entity>, msg: Msg, now: Time): Outcome
    requires msg.MigrateRequest?
  {
    if msg.eid !in table then Outcome(table, [])
    else if !IsEnteringSpace(table[msg.eid], now) then Outcome(table, [])
    else if table[msg.eid].space != msg.space then Outcome(table, [])
    else if msg.gameid == 0 then CancelEnterSpace(table, msg.eid)
    else
      // realMigrateTo: the entity leaves this game with its data
      Outcome(table - {msg.eid}, [RealMigrate(msg.eid, msg.gameid, table[msg.eid].data)])
  }

  /** OnRealMigrate; an entity that already exists makes the handler panic and lose the packet. */
  function OnRealMigrate(table: map<EntityId, Entity>, msg: Msg): Outcome
    requires msg.RealMigrate?
  {
    if msg.eid in table then Outcome(table, [])
    else Outcome(table[msg.eid := Entity(msg.data, 0, 0, false)], [])
  }

  /** OnCall; a call that does not find its entity is lost. */
  function OnCall(table: map<EntityId, Entity>, msg: Msg): Outcome
    requires msg.Call?
  {
    if msg.eid in table
    then Outcome(table[msg.eid := table[msg.eid].(data := table[msg.eid].data + [msg.id])], [])
    else Outcome(table, [])
  }

  function GameHandle(table: map<EntityId, Entity>, msg: Msg, now: Time): Outcome
  {
    match msg
    case Call(_, _) => OnCall(table, msg)
    case QuerySpace(_, _, _) => OnQuerySpaceAck(table, msg, now)
    case MigrateRequest(_, _, _) => OnMigrateRequestAck(table, msg, now)
    case RealMigrate(_, _, _) => OnRealMigrate(table, msg)
    case CancelMigrate(_) => Outcome(table, [])
    case NotifyCreate(_) => Outcome(table, [])
  }

  // ---------- The system ----------

  /**
    `up` holds the channels to the dispatcher, from games and gates alike; `executed` and
    `born` are histories that no handler reads.
  */
  datatype System = System(
    d: Dispatcher,
    tables: map<GameId, map<EntityId, Entity>>,
    up: map<GameId, seq<Msg>>,
    executed: map<EntityId, seq<CallId>>,
    born: set<EntityId>)

  datatype Step =
    | CreateEntity(g: GameId, e: EntityId)
    | SendCall(src: GameId, e: EntityId, id: CallId)
    | StartEnterSpace(g: GameId, e: EntityId, space: EntityId, here: bool)
    | PostedEnterSpace(g: GameId, e: EntityId)
    | GameReceive(g: GameId)
    | DispatcherReceive(src: GameId)

  ghost predicate WellFormed(s: System)
  {
    && s.d.down.Keys == s.tables.Keys
    && s.tables.Keys <= s.up.Keys
    && 0 !in s.tables
  }

  ghost predicate Enabled(s: System, step: Step)
    requires WellFormed(s)
  {
    match step
    case CreateEntity(g, e) => g in s.tables && e !in s.born
    case SendCall(src, e, id) => src in s.up
    case StartEnterSpace(g, e, space, here) => g in s.tables && e in s.tables[g]
    case PostedEnterSpace(g, e) => g in s.tables && e in s.tables[g] && s.tables[g][e].posted
    case GameReceive(g) => g in s.tables && s.d.down[g] != []
    case DispatcherReceive(src) => src in s.up && s.up[src] != []
  }

  /** A game applies a handler's outcome and its packets enter its channel to the dispatcher. */
  ghost function AtGame(s: System, g: GameId, outcome: Outcome): System
    requires g in s.up
  {
    s.(tables := s.tables[g := outcome.table], up := s.up[g := s.up[g] + outcome.sent])
  }

  ghost function Do(s: System, step: Step, now: Time): System
    requires WellFormed(s) && Enabled(s, step)
  {
    match step
    case CreateEntity(g, e) =>
      AtGame(s, g, Outcome(s.tables[g][e := Entity([], 0, 0, false)], [NotifyCreate(e)])).(born := s.born + {e})
    case SendCall(src, e, id) =>
      s.(up := s.up[src := s.up[src] + [Call(e, id)]])
    case StartEnterSpace(g, e, space, here) =>
      AtGame(s, g, EnterSpace(s.tables[g], e, space, here, now))
    case PostedEnterSpace(g, e) =>
      AtGame(s, g, FinishEnterSpace(s.tables[g], e))
    case GameReceive(g) =>
      var msg := s.d.down[g][0];
      var s1 := s.(d := s.d.(down := s.d.down[g := s.d.down[g][1..]]));
      var s2 := if msg.eid in s.tables[g] then s1.(executed := Record(s1.executed, msg)) else s1;
      AtGame(s2, g, GameHandle(s.tables[g], msg, now))
    case DispatcherReceive(src) =>
      s.(up := s.up[src := s.up[src][1..]], d := DispatcherHandle(s.d, src, s.up[src][0], now))
  }

  /** No block of an entity and no request to enter a space has run out at time `now`. */
  ghost predicate Timely(s: System, now: Time)
  {
    && now >= ENTER_SPACE_REQUEST_TIMEOUT
    && (forall e | e in s.d.edis :: s.d.edis[e].blockUntil == 0 || now < s.d.edis[e].blockUntil)
    && (forall g, e | g in s.tables && e in s.tables[g] ::
          s.tables[g][e].requestTime == 0 || IsEnteringSpace(s.tables[g][e], now))
  }

  /** The start: connected games, no entities, and nothing in the channels. */
  ghost predicate Init(s: System)
  {
    && WellFormed(s) && s.born == {} && s.d.edis == map[] && s.d.accepted == map[] && s.executed == map[]
    && (forall g | g in s.tables :: s.tables[g] == map[] && s.d.down[g] == [])
    && (forall g | g in s.up :: s.up[g] == [])
  }

  /** A run in which nothing times out; gates are sources without a table. */
  ghost predicate Run(states: seq<System>, steps: seq<Step>, times: seq<Time>)
  {
    && |states| == |steps| + 1 == |times| + 1
    && Init(states[0])
    && forall i | 0 <= i < |steps| ::
         && WellFormed(states[i]) && Enabled(states[i], steps[i]) && Timely(states[i], times[i])
         && states[i + 1] == Do(states[i], steps[i], times[i])
  }
}
