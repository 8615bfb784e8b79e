/** The invariant of the migration protocol: where an entity, its requests and its calls are. */
module MigrationProof {
  import opened Bytes
  import opened Migration
  import opened MigrationView

  /** How far a request to enter a space has come; `Posted` is one for a space of the same game. */
  datatype Req = Idle | Posted | Asked | Answered(gameid: GameId) | Requested(gameid: GameId) | Blocked(gameid: GameId)

  datatype Phase =
    | Unborn
    | Creating(at: GameId, x: Entity, req: Req)
    | Home(at: GameId, x: Entity, edi: Edi, a: seq<Msg>, req: Req)
    | Leaving(at: GameId, edi: Edi, to: GameId)
    | Arriving(at: GameId, a: seq<Msg>)

  /** The request about an entity that is on its way up. */
  function Asking(e: EntityId, x: Entity, req: Req): seq<Msg>
  {
    match req
    case Asked => [QuerySpace(e, x.space, 0)]
    case Requested(gameid) => [MigrateRequest(e, x.space, gameid)]
    case _ => []
  }

  /** The acknowledgement about an entity that is on its way down. */
  function Ack(e: EntityId, x: Entity, req: Req): seq<Msg>
  {
    match req
    case Answered(gameid) => [QuerySpace(e, x.space, gameid)]
    case Blocked(gameid) => [MigrateRequest(e, x.space, gameid)]
    case _ => []
  }

  ghost predicate HomeOk(e: EntityId, games: set<GameId>, at: GameId, x: Entity, edi: Edi, a: seq<Msg>, req: Req)
  {
    && edi.gameid == at && OnlyCalls(edi.queue, e)
    && (edi.blockUntil == 0 ==> edi.queue == [])
    && (edi.blockUntil != 0 <==> req.Blocked?)
    && (x.requestTime != 0 <==> !req.Idle?)
    && (x.posted <==> req.Posted?)
    && (x.requestIsSent <==> req.Requested? || req.Blocked?)
    && Control(a) == Ack(e, x, req)
    && (req.Blocked? ==> |a| > 0 && !a[|a| - 1].Call?)
    && (req.Answered? ==> req.gameid == 0 || req.gameid in games)
    && (req.Requested? || req.Blocked? ==> req.gameid in games && req.gameid != 0)
  }

  function HomeView(e: EntityId, at: GameId, x: Entity, edi: Edi, a: seq<Msg>, req: Req): View
  {
    View(true, map[at := x], Put(map[], at, Asking(e, x, req)),
         DView(Some(edi), Put(map[], at, a), x.data + (Calls(a) + Calls(edi.queue))), x.data)
  }

  function CreatingView(e: EntityId, at: GameId, x: Entity, req: Req): View
  {
    View(true, map[at := x], Put(map[], at, [NotifyCreate(e)] + Asking(e, x, req)),
         DView(None, map[], []), [])
  }

  function LeavingView(e: EntityId, at: GameId, edi: Edi, to: GameId, executed: seq<CallId>): View
  {
    View(true, map[], Put(map[], at, [RealMigrate(e, to, executed)]),
         DView(Some(edi), map[], executed + Calls(edi.queue)), executed)
  }

  function ArrivingView(e: EntityId, at: GameId, a: seq<Msg>, executed: seq<CallId>): View
  {
    View(true, map[], map[], DView(Some(Edi(at, 0, [])), Put(map[], at, a), executed + Calls(a)), executed)
  }

  ghost predicate InPhase(v: View, e: EntityId, games: set<GameId>, ph: Phase)
  {
    match ph
    case Unborn =>
      v == View(false, map[], map[], DView(None, map[], []), [])
    case Creating(at, x, req) =>
      && at in games && x.data == [] && !x.requestIsSent && (req.Idle? || req.Posted? || req.Asked?)
      && (x.requestTime != 0 <==> !req.Idle?) && (x.posted <==> req.Posted?)
      && v == CreatingView(e, at, x, req)
    case Home(at, x, edi, a, req) =>
      at in games && HomeOk(e, games, at, x, edi, a, req) && v == HomeView(e, at, x, edi, a, req)
    case Leaving(at, edi, to) =>
      && at in games && to in games && edi.gameid == at && edi.blockUntil != 0 && OnlyCalls(edi.queue, e)
      && v == LeavingView(e, at, edi, to, v.executed)
    case Arriving(at, a) =>
      && at in games && |a| > 0 && a[0] == RealMigrate(e, at, v.executed) && Control(a) == [a[0]]
      && v == ArrivingView(e, at, a, v.executed)
  }

  ghost predicate HasPhase(v: View, e: EntityId, games: set<GameId>)
  {
    exists ph :: InPhase(v, e, games, ph)
  }

  ghost predicate Inv(s: System)
  {
    WellFormed(s) && forall e :: HasPhase(ViewOf(s, e), e, s.tables.Keys)
  }

  /** The hypothesis of timely runs, for one entity. */
  ghost predicate TimelyFor(v: View, now: Time)
  {
    && now >= ENTER_SPACE_REQUEST_TIMEOUT
    && (v.dv.edi.Some? ==> v.dv.edi.value.blockUntil == 0 || now < v.dv.edi.value.blockUntil)
    && (forall g | g in v.held :: v.held[g].requestTime == 0 || IsEnteringSpace(v.held[g], now))
  }

  lemma TimelyView(s: System, now: Time, e: EntityId)
    requires Timely(s, now)
    ensures TimelyFor(ViewOf(s, e), now)
  {
    hide About, Control;
    assert forall g | g in Held(s.tables, e) :: g in s.tables && e in s.tables[g];
  }

  // ---------- What a single entity sees of a step at a game ----------

  /** The view after `g` handled something with this outcome. */
  function AtGameV(v: View, g: GameId, x: Option<Entity>, sent: seq<Msg>): View
  {
    v.(held := if x.Some? then v.held[g := x.value] else v.held - {g},
       rising := Put(v.rising, g, Get(v.rising, g) + sent))
  }

  /** An entity that stays: its table entry, its channels and its calls change together. */
  lemma StaysHome(e: EntityId, at: GameId, x: Entity, edi: Edi, a: seq<Msg>, req: Req,
                  x': Entity, rest: seq<Msg>, req': Req, sent: seq<Msg>)
    requires Asking(e, x', req') == Asking(e, x, req) + sent
    requires x.data + Calls(a) == x'.data + Calls(rest)
    ensures
      var v := HomeView(e, at, x, edi, a, req);
      AtGameV(v.(dv := v.dv.(falling := Put(v.dv.falling, at, rest)), executed := x'.data), at, Some(x'), sent)
        == HomeView(e, at, x', edi, rest, req')
  {
    hide Calls;
    PutOne(at, a, rest);
    PutOne(at, Asking(e, x, req), Asking(e, x', req'));
    var q := Calls(edi.queue);
    assert x.data + (Calls(a) + q) == x.data + Calls(a) + q == x'.data + (Calls(rest) + q);
  }

  /** What EnterSpace does, when no request has run out: nothing, post the entry, or ask. */
  lemma EnterOutcome(table: map<EntityId, Entity>, e: EntityId, space: EntityId, here: bool, now: Time)
    requires e in table && now >= ENTER_SPACE_REQUEST_TIMEOUT
    requires table[e].requestTime == 0 || IsEnteringSpace(table[e], now)
    requires table[e].requestTime == 0 ==> !table[e].requestIsSent && !table[e].posted
    ensures
      var o, x := EnterSpace(table, e, space, here, now), table[e];
      && e in o.table && Control(About(o.sent, e)) == o.sent
      && if x.requestTime != 0 then o.table[e] == x && o.sent == []
         else if here then o.table[e] == Entity(x.data, space, now, false, true) && o.sent == []
         else o.table[e] == Entity(x.data, space, now, false) && o.sent == [QuerySpace(e, space, 0)]
  {
  }

  lemma EnterPhase(v: View, e: EntityId, games: set<GameId>, ph: Phase, g: GameId, table: map<EntityId, Entity>,
                   space: EntityId, here: bool, now: Time) returns (ph': Phase)
    requires InPhase(v, e, games, ph) && TimelyFor(v, now)
    requires e in table && g in v.held && v.held[g] == table[e]
    ensures
      var o := EnterSpace(table, e, space, here, now);
      Control(About(o.sent, e)) == o.sent && e in o.table &&
      InPhase(AtGameV(v, g, Some(o.table[e]), o.sent), e, games, ph')
  {
    hide About, Control, Calls, EnterSpace;
    EnterOutcome(table, e, space, here, now);
    var o := EnterSpace(table, e, space, here, now);
    var x := table[e];
    ph' := RequestPhase(v, e, games, ph, g, o.table[e], if x.requestTime != 0 then ph.req else if here then Posted else Asked, o.sent);
  }

  /** The request of an entity changes at its game, and its packet goes up. */
  lemma RequestPhase(v: View, e: EntityId, games: set<GameId>, ph: Phase, g: GameId, x': Entity, req': Req, sent: seq<Msg>)
    returns (ph': Phase)
    requires InPhase(v, e, games, ph) && (ph.Creating? || ph.Home?) && g in v.held
    requires x'.data == ph.x.data && Asking(e, x', req') == Asking(e, ph.x, ph.req) + sent
    requires ph.Creating? ==> InPhase(CreatingView(e, ph.at, x', req'), e, games, Creating(ph.at, x', req'))
    requires ph.Home? ==> HomeOk(e, games, ph.at, x', ph.edi, ph.a, req')
    ensures InPhase(AtGameV(v, g, Some(x'), sent), e, games, ph')
  {
    hide About, Control, Calls, HomeOk;
    match ph
    case Creating(at, x, req) =>
      ph' := Creating(at, x', req');
      PutOne(g, Get(v.rising, g), Get(v.rising, g) + sent);
      assert [NotifyCreate(e)] + (Asking(e, x, req) + sent) == [NotifyCreate(e)] + Asking(e, x, req) + sent;
    case Home(at, x, edi, a, req) =>
      ph' := Home(at, x', edi, a, req');
      PutOne(g, a, a);
      StaysHome(e, at, x, edi, a, req, x', a, req', sent);
  }

  /** The posted entry into a space of the same game: the request is over. */
  lemma PostedPhase(v: View, e: EntityId, games: set<GameId>, ph: Phase, g: GameId, table: map<EntityId, Entity>)
    returns (ph': Phase)
    requires InPhase(v, e, games, ph)
    requires e in table && g in v.held && v.held[g] == table[e] && table[e].posted
    ensures
      var o := FinishEnterSpace(table, e);
      Control(About(o.sent, e)) == o.sent && e in o.table &&
      InPhase(AtGameV(v, g, Some(o.table[e]), o.sent), e, games, ph')
  {
    var o := FinishEnterSpace(table, e);
    assert o.sent == [] && o.table[e] == Entity(table[e].data, 0, 0, false);
    NothingSent(e);
    hide About, Control, Calls;
    assert Asking(e, ph.x, ph.req) + o.sent == [];
    ph' := RequestPhase(v, e, games, ph, g, o.table[e], Idle, o.sent);
  }

  // ---------- What a single entity sees of a packet a game receives ----------

  /** The first packet on its way down tells where the entity is. */
  lemma FirstDown(v: View, e: EntityId, games: set<GameId>, ph: Phase, g: GameId, m: Msg, rest: seq<Msg>)
    requires InPhase(v, e, games, ph) && Get(v.dv.falling, g) == [m] + rest
    ensures (ph.Home? || ph.Arriving?) && g == ph.at && ph.a == [m] + rest
    ensures Control(ph.a) == (if m.Call? then [] else [m]) + Control(rest)
    ensures Calls(ph.a) == (if m.Call? then [m.id] else []) + Calls(rest)
    ensures ph.Home? ==> m.Call? || [m] == Ack(e, ph.x, ph.req)
    ensures ph.Arriving? ==> m.RealMigrate?
  {
    var a := [m] + rest;
    assert a[1..] == rest;
    assert Control(a) == (if m.Call? then [] else [m]) + Control(rest);
    assert Calls(a) == (if m.Call? then [m.id] else []) + Calls(rest);
    hide Control, Calls, About;
    assert ph.Home? || ph.Arriving?;
    PutOne(g, a, a);
  }

  lemma CallPhase(v: View, e: EntityId, games: set<GameId>, ph: Phase, g: GameId, id: CallId, rest: seq<Msg>)
    returns (ph': Phase)
    requires InPhase(v, e, games, ph) && Get(v.dv.falling, g) == [Call(e, id)] + rest
    ensures g in v.held
    ensures
      var x := v.held[g];
      InPhase(AtGameV(v.(dv := v.dv.(falling := Put(v.dv.falling, g, rest)), executed := v.executed + [id]),
                      g, Some(x.(data := x.data + [id])), []), e, games, ph')
  {
    FirstDown(v, e, games, ph, g, Call(e, id), rest);
    hide About, Control, Calls;
    var Home(at, x, edi, a, req) := ph;
    if |rest| > 0 {
      assert a[|a| - 1] == rest[|rest| - 1];
    }
    assert [] + Control(rest) == Control(rest);
    assert x.data + ([id] + Calls(rest)) == x.data + [id] + Calls(rest);
    assert Asking(e, x, req) + [] == Asking(e, x, req);
    var x' := x.(data := x.data + [id]);
    StaysHome(e, at, x, edi, a, req, x', rest, req, []);
    ph' := Home(at, x', edi, rest, req);
  }

  lemma QueryAckOutcome(table: map<EntityId, Entity>, m: Msg, now: Time)
    requires m.QuerySpace? && m.eid in table
    requires IsEnteringSpace(table[m.eid], now) && table[m.eid].space == m.space
    requires !table[m.eid].requestIsSent && !table[m.eid].posted
    ensures
      var o, x := OnQuerySpaceAck(table, m, now), table[m.eid];
      && m.eid in o.table && Control(About(o.sent, m.eid)) == o.sent
      && if m.gameid == 0 then o.table[m.eid] == Entity(x.data, 0, 0, false) && o.sent == []
         else o.table[m.eid] == x.(requestIsSent := true) && o.sent == [MigrateRequest(m.eid, m.space, m.gameid)]
  {
  }

  lemma QueryAckPhase(v: View, e: EntityId, games: set<GameId>, ph: Phase, g: GameId, table: map<EntityId, Entity>,
                      m: Msg, rest: seq<Msg>, now: Time) returns (ph': Phase)
    requires InPhase(v, e, games, ph) && Get(v.dv.falling, g) == [m] + rest && TimelyFor(v, now)
    requires m.QuerySpace? && m.eid == e
    requires e in table <==> g in v.held
    requires e in table ==> v.held[g] == table[e]
    ensures
      var o := OnQuerySpaceAck(table, m, now);
      e in table && e in o.table && Control(About(o.sent, e)) == o.sent &&
      InPhase(AtGameV(v.(dv := v.dv.(falling := Put(v.dv.falling, g, rest))), g, Some(o.table[e]), o.sent),
              e, games, ph')
  {
    hide About, Control, Calls, OnQuerySpaceAck;
    FirstDown(v, e, games, ph, g, m, rest);
    QueryAckOutcome(table, m, now);
    var o := OnQuerySpaceAck(table, m, now);
    var Home(at, x, edi, a, req) := ph;
    var req' := if m.gameid == 0 then Idle else Requested(m.gameid);
    var x' := o.table[e];
    assert [] + o.sent == o.sent && [] + Calls(rest) == Calls(rest);
    StaysHome(e, at, x, edi, a, req, x', rest, req', o.sent);
    ph' := Home(at, x', edi, rest, req');
  }

  lemma MigrateAckPhase(v: View, e: EntityId, games: set<GameId>, ph: Phase, g: GameId, table: map<EntityId, Entity>,
                        m: Msg, rest: seq<Msg>, now: Time) returns (ph': Phase)
    requires InPhase(v, e, games, ph) && Get(v.dv.falling, g) == [m] + rest && TimelyFor(v, now)
    requires m.MigrateRequest? && m.eid == e
    requires e in table <==> g in v.held
    requires e in table ==> v.held[g] == table[e]
    ensures
      var o := OnMigrateRequestAck(table, m, now);
      e in table && e !in o.table && Control(About(o.sent, e)) == o.sent &&
      InPhase(AtGameV(v.(dv := v.dv.(falling := Put(v.dv.falling, g, rest))), g, None, o.sent), e, games, ph')
  {
    FirstDown(v, e, games, ph, g, m, rest);
    var o := OnMigrateRequestAck(table, m, now);
    assert Control(About(o.sent, e)) == o.sent;
    NoCalls([]);
    hide About, Control, Calls;
    var Home(at, x, edi, a, req) := ph;
    if |rest| > 0 {
      assert a[|a| - 1] == rest[|rest| - 1];
      NoControl(rest, |rest| - 1);
    }
    PutOne(g, a, rest);
    PutOne(g, [], o.sent);
    assert rest == [] && v.held - {g} == map[] && [] + o.sent == o.sent;
    assert Calls(a) + Calls(edi.queue) == Calls(edi.queue);
    ph' := Leaving(g, edi, m.gameid);
  }

  lemma NoCalls(a: seq<Msg>)
    ensures a == [] ==> Calls(a) == [] && Control(a) == []
  {
  }

  lemma RealMigratePhase(v: View, e: EntityId, games: set<GameId>, ph: Phase, g: GameId, m: Msg, rest: seq<Msg>)
    returns (ph': Phase)
    requires InPhase(v, e, games, ph) && Get(v.dv.falling, g) == [m] + rest
    requires m.RealMigrate? && m.eid == e
    ensures g !in v.held
    ensures InPhase(AtGameV(v.(dv := v.dv.(falling := Put(v.dv.falling, g, rest))), g,
                            Some(Entity(m.data, 0, 0, false)), []), e, games, ph')
  {
    FirstDown(v, e, games, ph, g, m, rest);
    NoCalls([]);
    hide About, Control, Calls;
    assert ph.Arriving?;
    PutOne(g, ph.a, rest);
    PutOne(g, [], []);
    assert Calls(rest) + [] == Calls(rest) == [] + Calls(rest);
    ph' := Home(g, Entity(m.data, 0, 0, false), Edi(g, 0, []), rest, Idle);
  }

  // ---------- What a single entity sees of a packet the dispatcher receives ----------

  /** The dispatcher's view after it took in the call `m`. */
  function Taken(dv: DView, m: Msg): DView
    requires m.Call? && dv.edi.Some?
  {
    var edi := dv.edi.value;
    if edi.blockUntil == 0 then
      DView(dv.edi, Put(dv.falling, edi.gameid, Get(dv.falling, edi.gameid) + [m]), dv.accepted + [m.id])
    else if |edi.queue| < ENTITY_PENDING_PACKET_QUEUE_MAX_LEN then
      DView(Some(edi.(queue := edi.queue + [m])), dv.falling, dv.accepted + [m.id])
    else dv
  }

  /** Appending a call to a channel or a queue appends it to the calls there. */
  lemma CallAppended(ch: seq<Msg>, m: Msg, x: seq<CallId>, before: seq<CallId>)
    requires m.Call?
    ensures Calls(ch + [m]) == Calls(ch) + [m.id] && Control(ch + [m]) == Control(ch)
    ensures x + (before + Calls(ch)) + [m.id] == x + (before + Calls(ch + [m]))
    ensures x + (Calls(ch) + Calls([])) + [m.id] == x + (Calls(ch + [m]) + Calls([]))
    ensures x + Calls(ch) + [m.id] == x + Calls(ch + [m])
  {
    OneCall(m);
    CallsAppend(ch, [m]);
    ControlAppend(ch, [m]);
    hide Calls, Control;
    assert x + (before + Calls(ch)) + [m.id] == x + (before + (Calls(ch) + [m.id]));
    assert x + (Calls(ch) + []) + [m.id] == x + (Calls(ch) + [m.id] + []);
    assert Control(ch) + [] == Control(ch);
  }

  lemma OneCall(m: Msg)
    requires m.Call?
    ensures Calls([m]) == [m.id] && Control([m]) == [] && Calls([]) == []
  {
    assert [m][1..] == [];
  }

  lemma CallTakenAtHome(e: EntityId, at: GameId, x: Entity, edi: Edi, a: seq<Msg>, req: Req, m: Msg)
    requires m.Call? && edi.gameid == at && (edi.blockUntil == 0 ==> edi.queue == [])
    ensures
      var v, edi' := HomeView(e, at, x, edi, a, req), edi.(queue := edi.queue + [m]);
      v.(dv := Taken(v.dv, m)) ==
        if edi.blockUntil == 0 then HomeView(e, at, x, edi, a + [m], req)
        else if |edi.queue| < ENTITY_PENDING_PACKET_QUEUE_MAX_LEN then HomeView(e, at, x, edi', a, req) else v
  {
    hide Control, Calls;
    PutOne(at, a, a + [m]);
    CallAppended(a, m, x.data, []);
    CallAppended(edi.queue, m, x.data, Calls(a));
  }

  lemma CallTakenPhase(v: View, e: EntityId, games: set<GameId>, ph: Phase, m: Msg)
    returns (ph': Phase)
    requires InPhase(v, e, games, ph) && m.Call? && m.eid == e && v.dv.edi.Some?
    ensures v.dv.edi.value.gameid in games
    ensures InPhase(v.(dv := Taken(v.dv, m)), e, games, ph')
  {
    hide About, Control, Calls;
    var edi := v.dv.edi.value;
    var edi' := edi.(queue := edi.queue + [m]);
    var full := |edi.queue| >= ENTITY_PENDING_PACKET_QUEUE_MAX_LEN;
    match ph
    case Home(at, x, _, a, req) =>
      CallTakenAtHome(e, at, x, edi, a, req, m);
      CallAppended(a, m, x.data, []);
      ph' := if edi.blockUntil == 0 then Home(at, x, edi, a + [m], req)
             else if full then ph else Home(at, x, edi', a, req);
    case Leaving(at, _, to) =>
      CallAppended(edi.queue, m, v.executed, []);
      ph' := if full then ph else Leaving(at, edi', to);
    case Arriving(at, a) =>
      PutOne(at, a, a + [m]);
      CallAppended(a, m, v.executed, []);
      ph' := Arriving(at, a + [m]);
  }

  /** A request that reaches the dispatcher: the view without it on its way up. */
  function Risen(v: View, src: GameId, rest: seq<Msg>): View
  {
    v.(rising := Put(v.rising, src, rest))
  }

  /** The first request on its way up tells where the entity is, or was. */
  lemma FirstUp(v: View, e: EntityId, games: set<GameId>, ph: Phase, src: GameId, m: Msg, rest: seq<Msg>)
    requires InPhase(v, e, games, ph) && Get(v.rising, src) == [m] + rest
    ensures !ph.Unborn? && !ph.Arriving? && src == ph.at && src in games
    ensures ph.Creating? ==> m == NotifyCreate(e) && rest == Asking(e, ph.x, ph.req)
    ensures ph.Home? ==> [m] == Asking(e, ph.x, ph.req) && rest == []
    ensures ph.Leaving? ==> m == RealMigrate(e, ph.to, v.executed) && rest == []
  {
    hide About, Control, Calls;
    assert src in v.rising && v.rising[src] == [m] + rest && v.rising[src][0] == m;
    if ph.Creating? {
      assert v.rising[src] == [NotifyCreate(e)] + Asking(e, ph.x, ph.req);
      assert v.rising[src][1..] == rest;
    } else if ph.Leaving? {
      assert v.rising[src] == [RealMigrate(e, ph.to, v.executed)];
      assert v.rising[src][1..] == rest;
    } else {
      assert v.rising[src] == Asking(e, ph.x, ph.req);
      assert v.rising[src][1..] == rest;
    }
  }

  lemma CreatedPhase(v: View, e: EntityId, games: set<GameId>, ph: Phase, src: GameId, rest: seq<Msg>)
    returns (ph': Phase)
    requires InPhase(v, e, games, ph) && Get(v.rising, src) == [NotifyCreate(e)] + rest
    ensures v.dv == DView(None, map[], [])
    ensures InPhase(Risen(v, src, rest).(dv := DView(Some(Edi(src, 0, [])), map[], [])), e, games, ph')
  {
    FirstUp(v, e, games, ph, src, NotifyCreate(e), rest);
    NoCalls([]);
    hide About, Control, Calls;
    assert ph.Creating?;
    var x := ph.x;
    PutOne(src, v.rising[src], rest);
    PutOne(src, [], []);
    ph' := Home(src, x, Edi(src, 0, []), [], ph.req);
  }

  /** A request of an entity at home comes back on the same connection as `ack`. */
  lemma Returned(e: EntityId, at: GameId, x: Entity, edi: Edi, a: seq<Msg>, req: Req, req': Req, m: Msg, ack: Msg,
                 until: Time)
    requires Asking(e, x, req) == [m] && Asking(e, x, req') == [] && !ack.Call?
    ensures
      var v := HomeView(e, at, x, edi, a, req);
      Risen(v, at, []).(dv := DView(Some(edi.(blockUntil := until)),
        Put(v.dv.falling, at, Get(v.dv.falling, at) + [ack]), v.dv.accepted))
        == HomeView(e, at, x, edi.(blockUntil := until), a + [ack], req')
    ensures Control(a + [ack]) == Control(a) + [ack]
  {
    PutOne(at, [m], []);
    PutOne(at, a, a + [ack]);
    ControlAppend(a, [ack]);
    CallsAppend(a, [ack]);
    NotACall(ack);
    hide Control, Calls;
    assert Calls(a) + [] == Calls(a);
  }

  lemma QueryPhase(v: View, e: EntityId, games: set<GameId>, ph: Phase, src: GameId, m: Msg, rest: seq<Msg>,
                   gameid: GameId) returns (ph': Phase)
    requires InPhase(v, e, games, ph) && Get(v.rising, src) == [m] + rest && m.QuerySpace? && m.eid == e
    requires gameid == 0 || gameid in games
    ensures src in games && v.dv.edi.Some? && rest == []
    ensures
      InPhase(Risen(v, src, rest).(dv := v.dv.(falling :=
        Put(v.dv.falling, src, Get(v.dv.falling, src) + [QuerySpace(e, m.space, gameid)]))), e, games, ph')
  {
    FirstUp(v, e, games, ph, src, m, rest);
    hide About, Calls, Control;
    var Home(at, x, edi, a, req) := ph;
    var ack := QuerySpace(e, m.space, gameid);
    Returned(e, at, x, edi, a, req, Answered(gameid), m, ack, edi.blockUntil);
    assert [] + [ack] == [ack] && edi.(blockUntil := edi.blockUntil) == edi;
    ph' := Home(at, x, edi, a + [ack], Answered(gameid));
  }

  lemma MigrateRequestPhase(v: View, e: EntityId, games: set<GameId>, ph: Phase, src: GameId, m: Msg, rest: seq<Msg>,
                            until: Time) returns (ph': Phase)
    requires InPhase(v, e, games, ph) && Get(v.rising, src) == [m] + rest && m.MigrateRequest? && m.eid == e
    requires until > 0
    ensures src in games && v.dv.edi.Some? && v.dv.edi.value.blockUntil == 0
    ensures
      InPhase(Risen(v, src, rest).(dv := DView(Some(v.dv.edi.value.(blockUntil := until)),
        Put(v.dv.falling, src, Get(v.dv.falling, src) + [m]), v.dv.accepted)), e, games, ph')
  {
    FirstUp(v, e, games, ph, src, m, rest);
    hide About, Calls, Control;
    var Home(at, x, edi, a, req) := ph;
    assert m == Asking(e, x, req)[0];
    Returned(e, at, x, edi, a, req, Blocked(m.gameid), m, m, until);
    assert [] + [m] == [m];
    ph' := Home(at, x, edi.(blockUntil := until), a + [m], Blocked(m.gameid));
  }

  lemma NotACall(m: Msg)
    requires !m.Call?
    ensures Control([m]) == [m] && Calls([m]) == []
  {
  }

  lemma RealMigrateTakenPhase(v: View, e: EntityId, games: set<GameId>, ph: Phase, src: GameId, m: Msg, rest: seq<Msg>)
    returns (ph': Phase)
    requires InPhase(v, e, games, ph) && Get(v.rising, src) == [m] + rest && m.RealMigrate? && m.eid == e
    ensures m.gameid in games && v.dv.edi.Some? && v.dv.edi.value.blockUntil != 0 && v.dv.falling == map[]
    ensures
      InPhase(Risen(v, src, rest).(dv := DView(Some(Edi(m.gameid, 0, [])),
        Put(map[], m.gameid, [m] + v.dv.edi.value.queue), v.dv.accepted)), e, games, ph')
  {
    FirstUp(v, e, games, ph, src, m, rest);
    hide About;
    assert ph.Leaving?;
    var Leaving(at, edi, to) := ph;
    PutOne(src, [m], rest);
    OnlyCallsViews(edi.queue, e);
    ControlAppend([m], edi.queue);
    CallsAppend([m], edi.queue);
    NotACall(m);
    hide Control, Calls;
    assert [m] + [] == [m] && [] + Calls(edi.queue) == Calls(edi.queue);
    PutOne(src, [], []);
    ph' := Arriving(to, [m] + edi.queue);
  }

  // ---------- Every step keeps the invariant ----------

  lemma ViewAfterReceive(s: System, g: GameId, now: Time, e: EntityId)
    requires WellFormed(s) && Enabled(s, GameReceive(g))
    ensures
      var m, v := s.d.down[g][0], ViewOf(s, e);
      var o, rest := GameHandle(s.tables[g], m, now), About(s.d.down[g][1..], e);
      var executed := if m.eid in s.tables[g] then Record(s.executed, m) else s.executed;
      ViewOf(Do(s, GameReceive(g), now), e) ==
        AtGameV(v.(dv := v.dv.(falling := Put(v.dv.falling, g, rest)), executed := History(executed, e)),
                g, if e in o.table then Some(o.table[e]) else None, Control(About(o.sent, e)))
  {
    hide About, Control, GameHandle;
    var m := s.d.down[g][0];
    FallingUpdate(s.d.down, g, s.d.down[g][1..], e);
    var s1 := s.(d := s.d.(down := s.d.down[g := s.d.down[g][1..]]));
    var s2 := if m.eid in s.tables[g] then s1.(executed := Record(s1.executed, m)) else s1;
    AtGameView(s2, g, GameHandle(s.tables[g], m, now), e);
  }

  /** A handler touches only the entity the packet is about, and sends packets about it only. */
  lemma OutcomeLocal(table: map<EntityId, Entity>, m: Msg, now: Time, e: EntityId)
    requires e != m.eid
    ensures
      var o := GameHandle(table, m, now);
      (e in o.table <==> e in table) && (e in table ==> o.table[e] == table[e]) && Control(About(o.sent, e)) == []
  {
  }

  /** A step about other entities at a game shows nothing. */
  lemma AtGameUnseen(v: View, g: GameId, x: Option<Entity>)
    requires g in v.rising ==> v.rising[g] != []
    requires if x.Some? then g in v.held && v.held[g] == x.value else g !in v.held
    ensures AtGameV(v, g, x, []) == v
  {
    PutGet(v.rising, g);
    assert v.held == if x.Some? then v.held[g := x.value] else v.held - {g};
  }

  lemma GameStepOther(s: System, g: GameId, now: Time, e: EntityId)
    requires WellFormed(s) && Enabled(s, GameReceive(g)) && s.d.down[g][0].eid != e
    ensures ViewOf(Do(s, GameReceive(g), now), e) == ViewOf(s, e)
  {
    var v, m := ViewOf(s, e), s.d.down[g][0];
    ViewAfterReceive(s, g, now, e);
    Pop(s.d.down[g], e);
    FallingUpdate(s.d.down, g, s.d.down[g], e);
    OutcomeLocal(s.tables[g], m, now, e);
    hide About, Control, GameHandle, Do;
    PutGet(v.dv.falling, g);
    RecordView(s.executed, m, e);
    AtGameUnseen(v, g, if e in s.tables[g] then Some(s.tables[g][e]) else None);
  }

  lemma GameStepSubject(s: System, g: GameId, now: Time, e: EntityId, ph: Phase) returns (ph': Phase)
    requires WellFormed(s) && Enabled(s, GameReceive(g)) && s.d.down[g][0].eid == e && Timely(s, now)
    requires InPhase(ViewOf(s, e), e, s.tables.Keys, ph)
    ensures InPhase(ViewOf(Do(s, GameReceive(g), now), e), e, s.tables.Keys, ph')
  {
    hide About, Control, Calls, InPhase, Do;
    var v, games, m := ViewOf(s, e), s.tables.Keys, s.d.down[g][0];
    ViewAfterReceive(s, g, now, e);
    TimelyView(s, now, e);
    Pop(s.d.down[g], e);
    FallingUpdate(s.d.down, g, s.d.down[g], e);
    var rest := About(s.d.down[g][1..], e);
    FirstDown(v, e, games, ph, g, m, rest);
    match m
    case Call(_, id) =>
      ph' := CallPhase(v, e, games, ph, g, id, rest);
      RecordView(s.executed, m, e);
      NothingSent(e);
    case QuerySpace(_, _, _) =>
      ph' := QueryAckPhase(v, e, games, ph, g, s.tables[g], m, rest, now);
    case MigrateRequest(_, _, _) =>
      ph' := MigrateAckPhase(v, e, games, ph, g, s.tables[g], m, rest, now);
    case RealMigrate(_, _, _) =>
      ph' := RealMigratePhase(v, e, games, ph, g, m, rest);
      NothingSent(e);
  }

  lemma NothingSent(e: EntityId)
    ensures Control(About([], e)) == []
  {
  }

  /** What the invariant says of any dispatcher entry. */
  ghost predicate EdiOk(d: Dispatcher, c: EntityId)
  {
    c in d.edis ==> OnlyCalls(d.edis[c].queue, c) && d.edis[c].gameid in d.down
  }

  lemma EdiOfPhase(s: System, c: EntityId)
    requires Inv(s)
    ensures EdiOk(s.d, c)
  {
    hide About, Control, Calls;
    assert HasPhase(ViewOf(s, c), c, s.tables.Keys);
    var ph :| InPhase(ViewOf(s, c), c, s.tables.Keys, ph);
  }

  /** Whatever the dispatcher does with a packet, other entities see nothing of it. */
  lemma HandleOther(d: Dispatcher, src: GameId, m: Msg, now: Time, e: EntityId)
    requires m.eid != e && EdiOk(d, m.eid) && (m.RealMigrate? ==> m.gameid in d.down)
    requires m.NotifyCreate? ==> src in d.down
    ensures ViewD(DispatcherHandle(d, src, m, now), e) == ViewD(d, e)
    ensures DispatcherHandle(d, src, m, now).down.Keys == d.down.Keys
  {
    var c := m.eid;
    AboutOne(m, e);
    match m
    case Call(_, _) =>
      if c in d.edis {
        hide About, ViewD;
        CallOther(d, m, now, e);
      }
    case QuerySpace(_, space, _) =>
      var ack := QuerySpace(c, space, if space in d.edis then d.edis[space].gameid else 0);
      AboutOne(ack, e);
      hide About, ViewD;
      SendOther(d, src, [ack], e);
    case MigrateRequest(_, _, _) =>
      hide About;
      SendOther(BlockRPC(ForWrite(d, c), c, now, DISPATCHER_MIGRATE_TIMEOUT), src, [m], e);
    case CancelMigrate(_) =>
      if c in d.edis {
        hide About, ViewD;
        UnblockView(d, c, e);
      }
    case RealMigrate(_, to, _) =>
      hide About;
      var d1 := ForWrite(d, c);
      var d2 := SetEdi(d1, c, d1.edis[c].(gameid := to));
      SendOther(d2, to, [m], e);
      UnblockView(SendToGame(d2, to, [m]), c, e);
    case NotifyCreate(_) =>
      hide About;
      var d1 := ForWrite(d, c);
      UnblockView(SetEdi(d1, c, d1.edis[c].(gameid := src)), c, e);
  }

  lemma CallOther(d: Dispatcher, m: Msg, now: Time, e: EntityId)
    requires m.Call? && m.eid != e && m.eid in d.edis && EdiOk(d, m.eid)
    ensures ViewD(DispatchPacket(d, m, now), e) == ViewD(d, e)
    ensures DispatchPacket(d, m, now).down.Keys == d.down.Keys
  {
    AboutOne(m, e);
    RecordView(d.accepted, m, e);
    hide About;
    SendOther(d, d.edis[m.eid].gameid, [m], e);
    UnblockView(d, m.eid, e);
  }

  lemma ViewAfterDispatch(s: System, src: GameId, now: Time, e: EntityId)
    requires WellFormed(s) && Enabled(s, DispatcherReceive(src))
    ensures ViewOf(Do(s, DispatcherReceive(src), now), e) ==
      Risen(ViewOf(s, e), src, Control(About(s.up[src][1..], e))).(dv :=
        ViewD(DispatcherHandle(s.d, src, s.up[src][0], now), e))
  {
    hide About, Control, ViewD, DispatcherHandle;
    RisingUpdate(s.up, src, s.up[src][1..], e);
  }

  /** A request that arrives is the request its own entity has on the way up. */
  lemma RequestOf(s: System, src: GameId, ph: Phase)
    requires WellFormed(s) && Enabled(s, DispatcherReceive(src)) && !s.up[src][0].Call?
    requires var c := s.up[src][0].eid; InPhase(ViewOf(s, c), c, s.tables.Keys, ph)
    ensures
      var m := s.up[src][0];
      var rest := Control(About(s.up[src][1..], m.eid));
      && Get(ViewOf(s, m.eid).rising, src) == [m] + rest && src in s.tables
      && (m.RealMigrate? ==> m.gameid in s.tables) && !m.CancelMigrate?
  {
    var m := s.up[src][0];
    Pop(s.up[src], m.eid);
    RisingUpdate(s.up, src, s.up[src], m.eid);
    FirstUp(ViewOf(s, m.eid), m.eid, s.tables.Keys, ph, src, m, Control(About(s.up[src][1..], m.eid)));
  }

  lemma DispatcherStepOther(s: System, src: GameId, now: Time, e: EntityId)
    requires Inv(s) && Enabled(s, DispatcherReceive(src)) && s.up[src][0].eid != e
    ensures ViewOf(Do(s, DispatcherReceive(src), now), e) == ViewOf(s, e)
    ensures WellFormed(Do(s, DispatcherReceive(src), now))
  {
    var v, m := ViewOf(s, e), s.up[src][0];
    EdiOfPhase(s, m.eid);
    if !m.Call? {
      hide InPhase;
      assert HasPhase(ViewOf(s, m.eid), m.eid, s.tables.Keys);
      var ph :| InPhase(ViewOf(s, m.eid), m.eid, s.tables.Keys, ph);
      RequestOf(s, src, ph);
    }
    Pop(s.up[src], e);
    RisingUpdate(s.up, src, s.up[src], e);
    hide About, Control, Calls, DispatcherHandle, Inv;
    HandleOther(s.d, src, m, now, e);
    ViewAfterDispatch(s, src, now, e);
    PutGet(v.rising, src);
  }

  /** The dispatcher's view of the entity a packet is about, before and after. */
  lemma CallTakenView(d: Dispatcher, m: Msg, now: Time)
    requires m.Call? && m.eid in d.edis && EdiOk(d, m.eid)
    requires d.edis[m.eid].blockUntil == 0 || now < d.edis[m.eid].blockUntil
    ensures ViewD(DispatchPacket(d, m, now), m.eid) == Taken(ViewD(d, m.eid), m)
  {
    AboutOne(m, m.eid);
    RecordView(d.accepted, m, m.eid);
    hide About;
    SendView(d, d.edis[m.eid].gameid, [m], m.eid);
  }

  lemma RealMigrateTakenView(d: Dispatcher, m: Msg)
    requires m.RealMigrate? && m.eid in d.edis && m.gameid in d.down && OnlyCalls(d.edis[m.eid].queue, m.eid)
    requires d.edis[m.eid].blockUntil != 0 && ViewD(d, m.eid).falling == map[]
    ensures ViewD(HandleRealMigrate(d, m), m.eid) ==
      DView(Some(Edi(m.gameid, 0, [])), Put(map[], m.gameid, [m] + d.edis[m.eid].queue), ViewD(d, m.eid).accepted)
  {
    var c, to := m.eid, m.gameid;
    AboutOne(m, c);
    hide About;
    var d2 := SetEdi(d, c, d.edis[c].(gameid := to));
    SendView(d2, to, [m], c);
    UnblockView(SendToGame(d2, to, [m]), c, c);
    PutOne(to, [m], [m] + d.edis[c].queue);
    PutOne(to, [], []);
    assert [] + [m] == [m];
  }

  lemma CallStepSubject(s: System, src: GameId, now: Time, e: EntityId, ph: Phase) returns (ph': Phase)
    requires Inv(s) && Enabled(s, DispatcherReceive(src)) && Timely(s, now)
    requires s.up[src][0].eid == e && s.up[src][0].Call?
    requires InPhase(ViewOf(s, e), e, s.tables.Keys, ph)
    ensures InPhase(ViewOf(Do(s, DispatcherReceive(src), now), e), e, s.tables.Keys, ph')
    ensures WellFormed(Do(s, DispatcherReceive(src), now))
  {
    hide About, Control, Calls, InPhase, ViewD, HasPhase;
    EdiOfPhase(s, e);
    var v, m, d := ViewOf(s, e), s.up[src][0], s.d;
    Pop(s.up[src], e);
    RisingUpdate(s.up, src, s.up[src], e);
    ViewAfterDispatch(s, src, now, e);
    var rest := Control(About(s.up[src][1..], e));
    assert [] + rest == rest;
    PutGet(v.rising, src);
    EdiView(d, e);
    ph' := ph;
    if e in d.edis {
      CallTakenView(d, m, now);
      ph' := CallTakenPhase(v, e, s.tables.Keys, ph, m);
    }
  }

  lemma CreateStepSubject(s: System, src: GameId, now: Time, e: EntityId, ph: Phase) returns (ph': Phase)
    requires Inv(s) && Enabled(s, DispatcherReceive(src)) && s.up[src][0].eid == e && Timely(s, now)
    requires InPhase(ViewOf(s, e), e, s.tables.Keys, ph) && s.up[src][0].NotifyCreate?
    ensures InPhase(ViewOf(Do(s, DispatcherReceive(src), now), e), e, s.tables.Keys, ph')
    ensures WellFormed(Do(s, DispatcherReceive(src), now))
  {
    hide About, Control, Calls, InPhase, ViewD, HasPhase;
    RequestOf(s, src, ph);
    EdiOfPhase(s, e);
    var v, games, m, d := ViewOf(s, e), s.tables.Keys, s.up[src][0], s.d;
    ViewAfterDispatch(s, src, now, e);
    var rest := Control(About(s.up[src][1..], e));
    EdiView(d, e);
    ph' := CreatedPhase(v, e, games, ph, src, rest);
    SetEdiView(d, e, Edi(0, 0, []), e);
    SetEdiView(ForWrite(d, e), e, Edi(src, 0, []), e);
  }

  lemma QueryStepSubject(s: System, src: GameId, now: Time, e: EntityId, ph: Phase) returns (ph': Phase)
    requires Inv(s) && Enabled(s, DispatcherReceive(src)) && s.up[src][0].eid == e && Timely(s, now)
    requires InPhase(ViewOf(s, e), e, s.tables.Keys, ph) && s.up[src][0].QuerySpace?
    ensures InPhase(ViewOf(Do(s, DispatcherReceive(src), now), e), e, s.tables.Keys, ph')
    ensures WellFormed(Do(s, DispatcherReceive(src), now))
  {
    hide About, Control, Calls, InPhase, ViewD, HasPhase;
    RequestOf(s, src, ph);
    EdiOfPhase(s, e);
    EdiOfPhase(s, s.up[src][0].space);
    var v, games, m, d := ViewOf(s, e), s.tables.Keys, s.up[src][0], s.d;
    ViewAfterDispatch(s, src, now, e);
    var rest := Control(About(s.up[src][1..], e));
    EdiView(d, e);
    var gameid := if m.space in d.edis then d.edis[m.space].gameid else 0;
    ph' := QueryPhase(v, e, games, ph, src, m, rest, gameid);
    AboutOne(QuerySpace(e, m.space, gameid), e);
    SendView(d, src, [QuerySpace(e, m.space, gameid)], e);
  }

  lemma MigrateRequestStepSubject(s: System, src: GameId, now: Time, e: EntityId, ph: Phase) returns (ph': Phase)
    requires Inv(s) && Enabled(s, DispatcherReceive(src)) && s.up[src][0].eid == e && Timely(s, now)
    requires InPhase(ViewOf(s, e), e, s.tables.Keys, ph) && s.up[src][0].MigrateRequest?
    ensures InPhase(ViewOf(Do(s, DispatcherReceive(src), now), e), e, s.tables.Keys, ph')
    ensures WellFormed(Do(s, DispatcherReceive(src), now))
  {
    hide About, Control, Calls, InPhase, ViewD, HasPhase;
    RequestOf(s, src, ph);
    EdiOfPhase(s, e);
    var v, games, m, d := ViewOf(s, e), s.tables.Keys, s.up[src][0], s.d;
    ViewAfterDispatch(s, src, now, e);
    var rest := Control(About(s.up[src][1..], e));
    EdiView(d, e);
    var until := now + DISPATCHER_MIGRATE_TIMEOUT;
    ph' := MigrateRequestPhase(v, e, games, ph, src, m, rest, until);
    AboutOne(m, e);
    SetEdiView(d, e, d.edis[e].(blockUntil := until), e);
    SendView(SetEdi(d, e, d.edis[e].(blockUntil := until)), src, [m], e);
  }

  lemma RealMigrateStepSubject(s: System, src: GameId, now: Time, e: EntityId, ph: Phase) returns (ph': Phase)
    requires Inv(s) && Enabled(s, DispatcherReceive(src)) && s.up[src][0].eid == e && Timely(s, now)
    requires InPhase(ViewOf(s, e), e, s.tables.Keys, ph) && s.up[src][0].RealMigrate?
    ensures InPhase(ViewOf(Do(s, DispatcherReceive(src), now), e), e, s.tables.Keys, ph')
    ensures WellFormed(Do(s, DispatcherReceive(src), now))
  {
    hide About, Control, Calls, InPhase, ViewD, HasPhase;
    RequestOf(s, src, ph);
    EdiOfPhase(s, e);
    var v, games, m, d := ViewOf(s, e), s.tables.Keys, s.up[src][0], s.d;
    ViewAfterDispatch(s, src, now, e);
    var rest := Control(About(s.up[src][1..], e));
    EdiView(d, e);
    ph' := RealMigrateTakenPhase(v, e, games, ph, src, m, rest);
    RealMigrateTakenView(d, m);
  }

  lemma DispatcherStepSubject(s: System, src: GameId, now: Time, e: EntityId, ph: Phase) returns (ph': Phase)
    requires Inv(s) && Enabled(s, DispatcherReceive(src)) && s.up[src][0].eid == e && Timely(s, now)
    requires InPhase(ViewOf(s, e), e, s.tables.Keys, ph)
    ensures InPhase(ViewOf(Do(s, DispatcherReceive(src), now), e), e, s.tables.Keys, ph')
    ensures WellFormed(Do(s, DispatcherReceive(src), now))
  {
    hide HasPhase, InPhase, ViewOf, Do;
    match s.up[src][0]
    case Call(_, _) => ph' := CallStepSubject(s, src, now, e, ph);
    case NotifyCreate(_) => ph' := CreateStepSubject(s, src, now, e, ph);
    case QuerySpace(_, _, _) => ph' := QueryStepSubject(s, src, now, e, ph);
    case MigrateRequest(_, _, _) => ph' := MigrateRequestStepSubject(s, src, now, e, ph);
    case RealMigrate(_, _, _) => ph' := RealMigrateStepSubject(s, src, now, e, ph);
    case CancelMigrate(_) => NoCancel(s, src, e, ph);
  }

  /** In timely runs no game ever cancels a migration. */
  lemma NoCancel(s: System, src: GameId, e: EntityId, ph: Phase)
    requires WellFormed(s) && Enabled(s, DispatcherReceive(src)) && s.up[src][0].eid == e
    requires InPhase(ViewOf(s, e), e, s.tables.Keys, ph)
    ensures !s.up[src][0].CancelMigrate?
  {
    if !s.up[src][0].Call? {
      RequestOf(s, src, ph);
    }
  }

  lemma EdiView(d: Dispatcher, e: EntityId)
    ensures ViewD(d, e).edi == if e in d.edis then Some(d.edis[e]) else None
  {
    hide About;
  }

  lemma CreateStep(s: System, g: GameId, c: EntityId, now: Time, e: EntityId, ph: Phase) returns (ph': Phase)
    requires WellFormed(s) && Enabled(s, CreateEntity(g, c)) && InPhase(ViewOf(s, e), e, s.tables.Keys, ph)
    ensures InPhase(ViewOf(Do(s, CreateEntity(g, c), now), e), e, s.tables.Keys, ph')
  {
    var v, x := ViewOf(s, e), Entity([], 0, 0, false);
    var o := Outcome(s.tables[g][c := x], [NotifyCreate(c)]);
    AboutOne(NotifyCreate(c), e);
    NotACall(NotifyCreate(c));
    NoCalls([]);
    hide About, Control, Calls, ViewD;
    AtGameView(s, g, o, e);
    if c == e {
      assert ph.Unborn?;
      PutOne(g, [], o.sent);
      assert [] + o.sent == o.sent && o.sent + [] == o.sent;
      ph' := Creating(g, x, Idle);
    } else {
      hide InPhase;
      AtGameUnseen(v, g, if e in s.tables[g] then Some(s.tables[g][e]) else None);
      ph' := ph;
    }
  }

  lemma SendCallStep(s: System, src: GameId, c: EntityId, id: CallId, now: Time, e: EntityId)
    requires WellFormed(s) && Enabled(s, SendCall(src, c, id))
    ensures ViewOf(Do(s, SendCall(src, c, id), now), e) == ViewOf(s, e)
  {
    Push(s.up[src], Call(c, id), e);
    RisingUpdate(s.up, src, s.up[src] + [Call(c, id)], e);
    hide About, Control, ViewD;
    assert Control(About(s.up[src], e)) + [] == Control(About(s.up[src], e));
    PutGet(Rising(s.up, e), src);
  }

  lemma EnterStep(s: System, g: GameId, c: EntityId, space: EntityId, here: bool, now: Time, e: EntityId, ph: Phase)
    returns (ph': Phase)
    requires WellFormed(s) && Enabled(s, StartEnterSpace(g, c, space, here)) && Timely(s, now)
    requires InPhase(ViewOf(s, e), e, s.tables.Keys, ph)
    ensures InPhase(ViewOf(Do(s, StartEnterSpace(g, c, space, here), now), e), e, s.tables.Keys, ph')
  {
    hide About, Control, Calls, ViewD, InPhase, EnterSpace;
    TimelyView(s, now, e);
    var o := EnterSpace(s.tables[g], c, space, here, now);
    AtGameView(s, g, o, e);
    if c == e {
      ph' := EnterPhase(ViewOf(s, e), e, s.tables.Keys, ph, g, s.tables[g], space, here, now);
    } else {
      EnterOther(s.tables[g], c, space, here, now, e);
      AtGameUnseen(ViewOf(s, e), g, if e in s.tables[g] then Some(s.tables[g][e]) else None);
      ph' := ph;
    }
  }

  lemma EnterOther(table: map<EntityId, Entity>, c: EntityId, space: EntityId, here: bool, now: Time, e: EntityId)
    requires c in table && c != e
    ensures
      var o := EnterSpace(table, c, space, here, now);
      (e in o.table <==> e in table) && (e in table ==> o.table[e] == table[e]) && Control(About(o.sent, e)) == []
    ensures
      var o := FinishEnterSpace(table, c);
      (e in o.table <==> e in table) && (e in table ==> o.table[e] == table[e]) && Control(About(o.sent, e)) == []
  {
  }

  lemma PostedStep(s: System, g: GameId, c: EntityId, now: Time, e: EntityId, ph: Phase) returns (ph': Phase)
    requires WellFormed(s) && Enabled(s, PostedEnterSpace(g, c))
    requires InPhase(ViewOf(s, e), e, s.tables.Keys, ph)
    ensures InPhase(ViewOf(Do(s, PostedEnterSpace(g, c), now), e), e, s.tables.Keys, ph')
  {
    hide About, Control, Calls, ViewD, InPhase, FinishEnterSpace;
    AtGameView(s, g, FinishEnterSpace(s.tables[g], c), e);
    if c == e {
      ph' := PostedPhase(ViewOf(s, e), e, s.tables.Keys, ph, g, s.tables[g]);
    } else {
      EnterOther(s.tables[g], c, 0, false, now, e);
      AtGameUnseen(ViewOf(s, e), g, if e in s.tables[g] then Some(s.tables[g][e]) else None);
      ph' := ph;
    }
  }

  lemma StepKeepsPhase(s: System, step: Step, now: Time, e: EntityId)
    requires Inv(s) && Enabled(s, step) && Timely(s, now)
    ensures WellFormed(Do(s, step, now)) && Do(s, step, now).tables.Keys == s.tables.Keys
    ensures HasPhase(ViewOf(Do(s, step, now), e), e, s.tables.Keys)
  {
    hide InPhase, ViewOf, Timely;
    var games := s.tables.Keys;
    assert HasPhase(ViewOf(s, e), e, games);
    var ph :| InPhase(ViewOf(s, e), e, games, ph);
    match step
    case CreateEntity(g, c) => var ph' := CreateStep(s, g, c, now, e, ph);
    case SendCall(src, c, id) => SendCallStep(s, src, c, id, now, e);
    case StartEnterSpace(g, c, space, here) => var ph' := EnterStep(s, g, c, space, here, now, e, ph);
    case PostedEnterSpace(g, c) => var ph' := PostedStep(s, g, c, now, e, ph);
    case GameReceive(g) =>
      if s.d.down[g][0].eid == e {
        var ph' := GameStepSubject(s, g, now, e, ph);
      } else {
        GameStepOther(s, g, now, e);
      }
    case DispatcherReceive(src) =>
      if s.up[src][0].eid == e {
        var ph' := DispatcherStepSubject(s, src, now, e, ph);
      } else {
        DispatcherStepOther(s, src, now, e);
      }
  }

  /** Every timely step keeps the invariant. */
  lemma StepKeepsInv(s: System, step: Step, now: Time)
    requires Inv(s) && Enabled(s, step) && Timely(s, now)
    ensures Inv(Do(s, step, now))
  {
    hide Enabled, Timely, Do, HasPhase;
    forall e
      ensures HasPhase(ViewOf(Do(s, step, now), e), e, s.tables.Keys)
    {
      StepKeepsPhase(s, step, now, e);
    }
    StepKeepsPhase(s, step, now, 0);
  }

  lemma InitInv(s: System)
    requires Init(s)
    ensures Inv(s)
  {
    forall e
      ensures HasPhase(ViewOf(s, e), e, s.tables.Keys)
    {
      assert ViewOf(s, e) == View(false, map[], map[], DView(None, map[], []), []);
      assert InPhase(ViewOf(s, e), e, s.tables.Keys, Unborn);
    }
  }

  /** Every state of a timely run satisfies the invariant. */
  lemma {:induction false} RunKeepsInv(states: seq<System>, steps: seq<Step>, times: seq<Time>, i: nat)
    requires Run(states, steps, times) && i < |states|
    ensures Inv(states[i])
  {
    if i == 0 {
      InitInv(states[0]);
    } else {
      RunKeepsInv(states, steps, times, i - 1);
      assert states[i - 1 + 1] == Do(states[i - 1], steps[i - 1], times[i - 1]);
      StepKeepsInv(states[i - 1], steps[i - 1], times[i - 1]);
    }
  }

  // ---------- What the invariant means for the system ----------

  /** Where a copy of an entity can be: in a game's table, or at some place in a channel. */
  datatype Place = InTable(g: GameId) | GoingUp(src: GameId, i: nat) | GoingDown(g: GameId, i: nat)

  ghost predicate CopyIn(ch: seq<Msg>, i: nat, e: EntityId)
  {
    i < |ch| && ch[i].RealMigrate? && ch[i].eid == e
  }

  ghost predicate HasCopy(s: System, e: EntityId, p: Place)
    requires WellFormed(s)
  {
    match p
    case InTable(g) => g in s.tables && e in s.tables[g]
    case GoingUp(src, i) => src in s.up && CopyIn(s.up[src], i, e)
    case GoingDown(g, i) => g in s.tables && CopyIn(s.d.down[g], i, e)
  }

  /** The entity is at `p` and nowhere else, and the dispatcher sends its calls there. */
  ghost predicate OnlyCopy(s: System, e: EntityId, p: Place)
    requires WellFormed(s)
  {
    && HasCopy(s, e, p)
    && (forall q :: HasCopy(s, e, q) ==> q == p)
    && (e in s.d.edis && s.d.edis[e].blockUntil == 0 ==>
          match p
          case InTable(g) => g == s.d.edis[e].gameid
          case GoingDown(g, _) => g == s.d.edis[e].gameid
          case GoingUp(_, _) => false)
  }

  lemma {:induction false} CopyInControl(ch: seq<Msg>, i: nat, e: EntityId)
    requires CopyIn(ch, i, e)
    ensures ch[i] in Control(About(ch, e))
  {
    if i > 0 {
      CopyInControl(ch[1..], i - 1, e);
    }
    Pop(ch, e);
  }

  /** A channel with one request about `e` holds it at one place only. */
  lemma {:induction false} OneRequest(ch: seq<Msg>, e: EntityId, m: Msg) returns (i: nat)
    requires Control(About(ch, e)) == [m] && m.RealMigrate? && m.eid == e
    ensures CopyIn(ch, i, e) && ch[i] == m
    ensures forall j: nat | CopyIn(ch, j, e) :: j == i
  {
    Pop(ch, e);
    var rest := Control(About(ch[1..], e));
    assert ([ch[0]] + rest)[0] == ch[0] && ([ch[0]] + rest)[1..] == rest && [] + rest == rest;
    if ch[0].eid == e && !ch[0].Call? {
      i := 0;
      forall j: nat | CopyIn(ch, j, e)
        ensures j == 0
      {
        if j > 0 {
          CopyInControl(ch[1..], j - 1, e);
        }
      }
    } else {
      var k := OneRequest(ch[1..], e, m);
      i := k + 1;
      forall j: nat | CopyIn(ch, j, e)
        ensures j == i
      {
        assert CopyIn(ch[1..], j - 1, e);
      }
    }
  }

  /** A copy on its way shows in the entity's view. */
  lemma CopyShows(s: System, e: EntityId, p: Place)
    requires WellFormed(s) && HasCopy(s, e, p)
    ensures
      var v := ViewOf(s, e);
      match p
      case InTable(g) => g in v.held
      case GoingUp(src, i) => src in v.rising && s.up[src][i] in v.rising[src]
      case GoingDown(g, i) => g in v.dv.falling && s.d.down[g][i] in Control(v.dv.falling[g])
  {
    hide About, Control;
    match p
    case InTable(g) =>
    case GoingUp(src, i) => CopyInControl(s.up[src], i, e);
    case GoingDown(g, i) =>
      CopyInControl(s.d.down[g], i, e);
      NoCalls(About(s.d.down[g], e));
  }

  lemma WhereCopyIs(s: System, e: EntityId, ph: Phase) returns (p: Place)
    requires WellFormed(s) && InPhase(ViewOf(s, e), e, s.tables.Keys, ph) && e in s.born
    ensures HasCopy(s, e, p)
    ensures match ph
      case Leaving(at, _, _) => p.GoingUp? && p.src == at && forall j: nat | CopyIn(s.up[at], j, e) :: j == p.i
      case Arriving(at, _) => p.GoingDown? && p.g == at && forall j: nat | CopyIn(s.d.down[at], j, e) :: j == p.i
      case Home(at, _, _, _, _) => p == InTable(at)
      case Creating(at, _, _) => p == InTable(at)
      case Unborn => true
  {
    hide About, Control, Calls;
    var v := ViewOf(s, e);
    match ph
    case Creating(at, _, _) => p := InTable(at);  assert at in v.held;
    case Home(at, _, _, _, _) => p := InTable(at);  assert at in v.held;
    case Leaving(at, _, to) =>
      assert at in v.rising && v.rising[at] == [RealMigrate(e, to, v.executed)];
      var i := OneRequest(s.up[at], e, RealMigrate(e, to, v.executed));
      p := GoingUp(at, i);
    case Arriving(at, a) =>
      assert at in v.dv.falling && v.dv.falling[at] == a;
      var i := OneRequest(s.d.down[at], e, a[0]);
      p := GoingDown(at, i);
  }

  /** Exactly one copy: a created entity is in one table or in one REAL_MIGRATE packet. */
  lemma ExactlyOneCopy(s: System, e: EntityId)
    requires Inv(s) && e in s.born
    ensures exists p :: OnlyCopy(s, e, p)
  {
    assert HasPhase(ViewOf(s, e), e, s.tables.Keys);
    var ph :| InPhase(ViewOf(s, e), e, s.tables.Keys, ph);
    var p := WhereCopyIs(s, e, ph);
    EdiView(s.d, e);
    forall q | HasCopy(s, e, q)
      ensures q == p
    {
      CopyShows(s, e, q);
      NothingElse(ViewOf(s, e), e, s.tables.Keys, ph);
      hide About, Control, Calls, InPhase;
    }
    hide About, Control, Calls;
    assert OnlyCopy(s, e, p);
  }

  /** Outside its phase's place, an entity's view shows no copy. */
  lemma NothingElse(v: View, e: EntityId, games: set<GameId>, ph: Phase)
    requires InPhase(v, e, games, ph) && !ph.Unborn?
    ensures forall g | g in v.held :: (ph.Creating? || ph.Home?) && g == ph.at
    ensures forall g, m | g in v.rising && m in v.rising[g] && m.RealMigrate? :: ph.Leaving? && g == ph.at
    ensures forall g, m | g in v.dv.falling && m in Control(v.dv.falling[g]) && m.RealMigrate? :: ph.Arriving? && g == ph.at
  {
    hide About, Calls, Control;
  }

  /** The calls the dispatcher took in are executed, on their way to the entity's game, or queued, in that order. */
  ghost predicate CallsAccounted(s: System, e: EntityId)
    requires WellFormed(s)
  {
    var executed, accepted := History(s.executed, e), History(s.d.accepted, e);
    if e in s.d.edis then
      var edi := s.d.edis[e];
      && edi.gameid in s.tables
      && accepted == executed + (Calls(About(s.d.down[edi.gameid], e)) + Calls(edi.queue))
      && forall g | g in s.tables && g != edi.gameid :: About(s.d.down[g], e) == []
    else
      accepted == [] == executed && forall g | g in s.tables :: About(s.d.down[g], e) == []
  }

  lemma PhaseAccounts(s: System, e: EntityId, ph: Phase)
    requires WellFormed(s) && InPhase(ViewOf(s, e), e, s.tables.Keys, ph)
    ensures CallsAccounted(s, e)
  {
    var v := ViewOf(s, e);
    EdiView(s.d, e);
    NoCalls([]);
    hide Control, Calls, About, Held, Rising;
    assert v.dv.falling == Falling(s.d.down, e) && v.executed == History(s.executed, e);
    forall g | g in s.tables
      ensures About(s.d.down[g], e) == Get(v.dv.falling, g)
    {
    }
    if ph.Leaving? {
      assert [] + Calls(ph.edi.queue) == Calls(ph.edi.queue);
    }
    if ph.Arriving? {
      assert Calls(ph.a) + [] == Calls(ph.a);
    }
  }

  /** The dispatcher sends an unblocked entity's calls where it is, or where it is about to arrive. */
  ghost predicate DispatcherKnows(s: System, e: EntityId)
    requires WellFormed(s)
  {
    e in s.d.edis && s.d.edis[e].blockUntil == 0 ==>
      var g := s.d.edis[e].gameid;
      g in s.tables && (HasCopy(s, e, InTable(g)) || exists i: nat :: HasCopy(s, e, GoingDown(g, i)))
  }

  lemma PhaseKnows(s: System, e: EntityId, ph: Phase)
    requires WellFormed(s) && InPhase(ViewOf(s, e), e, s.tables.Keys, ph)
    ensures DispatcherKnows(s, e)
  {
    EdiView(s.d, e);
    if e in s.d.edis && s.d.edis[e].blockUntil == 0 {
      assert ph.Home? || ph.Arriving?;
      var p := WhereCopyIs(s, e, ph);
      hide About, Control, Calls;
      assert p == InTable(ph.at) || p == GoingDown(ph.at, p.i);
    }
  }

  lemma CallFindsEntity(s: System, g: GameId)
    requires Inv(s) && g in s.tables && s.d.down[g] != [] && s.d.down[g][0].Call?
    ensures s.d.down[g][0].eid in s.tables[g]
  {
    var m := s.d.down[g][0];
    var e := m.eid;
    assert HasPhase(ViewOf(s, e), e, s.tables.Keys);
    var ph :| InPhase(ViewOf(s, e), e, s.tables.Keys, ph);
    Pop(s.d.down[g], e);
    FallingUpdate(s.d.down, g, s.d.down[g], e);
    FirstDown(ViewOf(s, e), e, s.tables.Keys, ph, g, m, About(s.d.down[g][1..], e));
    hide Control, Calls, About;
    assert g in ViewOf(s, e).held;
  }

  /** Wherever the copy is, it carries the effect of exactly the calls executed so far. */
  ghost predicate DataAt(s: System, e: EntityId, p: Place, data: seq<CallId>)
    requires WellFormed(s) && HasCopy(s, e, p)
  {
    match p
    case InTable(g) => s.tables[g][e].data == data
    case GoingUp(src, i) => s.up[src][i].data == data
    case GoingDown(g, i) => s.d.down[g][i].data == data
  }

  lemma DataTravels(s: System, e: EntityId, p: Place)
    requires Inv(s) && HasCopy(s, e, p)
    ensures DataAt(s, e, p, History(s.executed, e))
  {
    assert HasPhase(ViewOf(s, e), e, s.tables.Keys);
    var v := ViewOf(s, e);
    var ph :| InPhase(v, e, s.tables.Keys, ph);
    CopyShows(s, e, p);
    hide Control, Calls, About;
    assert !ph.Unborn?;
    NothingElse(v, e, s.tables.Keys, ph);
    match p
    case InTable(g) => assert v.held[g] == s.tables[g][e];
    case GoingUp(src, i) => assert v.rising[src] == [RealMigrate(e, ph.to, v.executed)];
    case GoingDown(g, i) => assert Control(v.dv.falling[g]) == [RealMigrate(e, g, v.executed)];
  }

  /**
    The safety of migration, for every state of every timely run: each created entity has exactly
    one copy, carrying what was executed; no call that was taken in is lost or overtaken; and each
    call that reaches a game finds its entity there.
  */
  lemma MigrationIsSafe(states: seq<System>, steps: seq<Step>, times: seq<Time>, i: nat)
    requires Run(states, steps, times) && i < |states|
    ensures WellFormed(states[i])
    ensures forall e | e in states[i].born :: exists p :: OnlyCopy(states[i], e, p)
    ensures forall e, p | HasCopy(states[i], e, p) :: DataAt(states[i], e, p, History(states[i].executed, e))
    ensures forall e :: CallsAccounted(states[i], e) && DispatcherKnows(states[i], e)
    ensures forall e :: History(states[i].executed, e) <= History(states[i].d.accepted, e)
    ensures forall g | g in states[i].tables && states[i].d.down[g] != [] ::
              var m := states[i].d.down[g][0]; m.Call? ==> m.eid in states[i].tables[g]
  {
    hide InPhase, ViewOf, OnlyCopy, DataAt, CallsAccounted, DispatcherKnows, Run, HasCopy;
    var s := states[i];
    RunKeepsInv(states, steps, times, i);
    forall e | e in s.born
      ensures exists p :: OnlyCopy(s, e, p)
    {
      ExactlyOneCopy(s, e);
    }
    forall e, p | HasCopy(s, e, p)
      ensures DataAt(s, e, p, History(s.executed, e))
    {
      DataTravels(s, e, p);
    }
    forall e
      ensures CallsAccounted(s, e) && DispatcherKnows(s, e) && History(s.executed, e) <= History(s.d.accepted, e)
    {
      assert HasPhase(ViewOf(s, e), e, s.tables.Keys);
      var ph :| InPhase(ViewOf(s, e), e, s.tables.Keys, ph);
      PhaseAccounts(s, e, ph);
      PhaseKnows(s, e, ph);
      ExecutedFirst(s, e);
    }
    forall g | g in s.tables && s.d.down[g] != [] && s.d.down[g][0].Call?
      ensures s.d.down[g][0].eid in s.tables[g]
    {
      CallFindsEntity(s, g);
    }
  }

  lemma ExecutedFirst(s: System, e: EntityId)
    requires WellFormed(s) && CallsAccounted(s, e)
    ensures History(s.executed, e) <= History(s.d.accepted, e)
  {
  }
}
