/**
  The entities and spaces of one game, as Entity.go, EntityManager.go and Space.go update them:
  entering spaces, migrating out and in, freezing and restoring.
*/
module Games {
  import opened Bytes
  import opened Migration

  type ClientId = nat

  /** Which of the two position synchronisations are due. */
  datatype SyncFlag = SyncFlag(own: bool, neighbors: bool)

  /**
    entityMigrateData, which migration sends and freezing stores. Positions and timers are opaque,
    and so are the attributes, but for the calls that made them and the kind of a space.
  */
  datatype MigrateData = MigrateData(
    isSpace: bool, kind: int, attrs: seq<CallId>, client: Option<ClientId>, pos: int, timers: int,
    space: EntityId, flag: SyncFlag)

  /** A packet to the dispatcher; the migration protocol sees of a REAL_MIGRATE the attributes only. */
  datatype Up = Small(msg: Msg) | Real(eid: EntityId, gameid: GameId, md: MigrateData)

  function Seen(up: Up): Msg
  {
    match up
    case Small(msg) => msg
    case Real(eid, gameid, md) => RealMigrate(eid, gameid, md.attrs)
  }

  function AllSeen(sent: seq<Up>): seq<Msg>
  {
    seq(|sent|, i requires 0 <= i < |sent| => Seen(sent[i]))
  }

  datatype Request = Request(space: EntityId, pos: int, time: Time, isSent: bool)

  datatype Posting = Posting(space: EntityId, pos: int)

  const NO_REQUEST := Request(0, 0, 0, false)

  /** Everything a game keeps about an entity; `members` are the entities in a space. */
  datatype State = State(
    isSpace: bool, kind: int, attrs: seq<CallId>, client: Option<ClientId>, pos: int, timers: int, flag: SyncFlag,
    space: Option<EntityId>, request: Request, posted: Option<Posting>, members: set<EntityId>)
  {
    /** GetMigrateData. */
    function MigrateDataTo(spaceid: EntityId): MigrateData
    {
      MigrateData(isSpace, kind, attrs, client, pos, timers, spaceid, flag)
    }

    /** The entity as the migration protocol sees it. */
    function Row(): Entity
    {
      Entity(attrs, request.space, request.time, request.isSent, posted.Some?)
    }
  }

  type States = map<EntityId, State>

  /** The entity table of the migration protocol. */
  function Table(st: States): (r: map<EntityId, Entity>)
    ensures r.Keys == st.Keys
  {
    map e | e in st :: st[e].Row()
  }

  /** What freezing stores. */
  function Snapshot(st: States): (r: map<EntityId, MigrateData>)
    ensures r.Keys == st.Keys
  {
    map e | e in st :: st[e].MigrateDataTo(if st[e].space.Some? then st[e].space.value else 0)
  }

  /** What is stored of an entity is what the entity has. */
  ghost predicate Stores(md: MigrateData, x: State)
  {
    && md.isSpace == x.isSpace && md.kind == x.kind && md.attrs == x.attrs && md.client == x.client
    && md.pos == x.pos && md.timers == x.timers && md.flag == x.flag && x.space == Some(md.space)
  }

  ghost predicate StoresAll(f: map<EntityId, MigrateData>, st: States)
  {
    f.Keys == st.Keys && forall e | e in st :: Stores(f[e], st[e])
  }

  lemma SnapshotStores(st: States)
    requires forall e | e in st :: st[e].space.Some?
    ensures StoresAll(Snapshot(st), st)
  {
  }

  /** There is one nil space; spaces are in it, and they do not migrate. */
  ghost predicate SpacesOk(st: States, spaces: set<EntityId>, nilSpace: Option<EntityId>)
  {
    && nilSpace.Some? && nilSpace.value in spaces
    && (forall s | s in spaces :: s in st && st[s].isSpace && (st[s].kind == 0 <==> nilSpace == Some(s)))
    && (forall e | e in st && st[e].isSpace ::
          e in spaces && st[e].space == nilSpace && st[e].request == NO_REQUEST && st[e].posted == None)
  }

  ghost predicate SpaceKnown(st: States, spaces: set<EntityId>)
  {
    forall e | e in st :: st[e].space.Some? && st[e].space.value in spaces
  }

  ghost predicate SetsOk(st: States, spaces: set<EntityId>, nilSpace: Option<EntityId>)
  {
    forall s, e | s in spaces && s in st ::
      e in st[s].members <==> e in st && st[e].space == Some(s) && nilSpace != Some(s)
  }

  /** Every entity is in a space, and in the set of exactly that space; the nil space keeps no set. */
  ghost predicate MembersOk(st: States, spaces: set<EntityId>, nilSpace: Option<EntityId>)
  {
    SpaceKnown(st, spaces) && SetsOk(st, spaces, nilSpace)
  }

  ghost predicate Placed(st: States, spaces: set<EntityId>, nilSpace: Option<EntityId>)
  {
    SpacesOk(st, spaces, nilSpace) && MembersOk(st, spaces, nilSpace)
  }

  /** space.enter, for an entity in the nil space. */
  function Entered(st: States, nilSpace: Option<EntityId>, s: EntityId, e: EntityId, pos: int): States
    requires s in st && e in st && s != e
  {
    if nilSpace == Some(s) then st
    else st[e := st[e].(space := Some(s), pos := pos, flag := SyncFlag(true, true))]
           [s := st[s].(members := st[s].members + {e})]
  }

  lemma EnteredOk(st: States, spaces: set<EntityId>, nilSpace: Option<EntityId>, s: EntityId, e: EntityId, pos: int)
    requires Placed(st, spaces, nilSpace) && s in spaces && e in st && !st[e].isSpace && st[e].space == nilSpace
    ensures s in st && s != e
    ensures
      var st' := Entered(st, nilSpace, s, e, pos);
      && Placed(st', spaces, nilSpace) && Table(st') == Table(st) && e in st' && st'[e].space == Some(s)
      && Snapshot(st') == if nilSpace == Some(s) then Snapshot(st)
         else Snapshot(st)[e := Snapshot(st)[e].(pos := pos, space := s, flag := SyncFlag(true, true))]
  {
    assert s in st && s != e by { hide MembersOk; }
    if nilSpace != Some(s) {
      MovedIn(st, spaces, nilSpace, s, e, st[e].(space := Some(s), pos := pos, flag := SyncFlag(true, true)));
    }
  }

  lemma MovedIn(st: States, spaces: set<EntityId>, nilSpace: Option<EntityId>, s: EntityId, e: EntityId, x: State)
    requires SpacesOk(st, spaces, nilSpace) && MembersOk(st, spaces, nilSpace)
    requires s in spaces && s in st && e in st && s != e && !st[e].isSpace && st[e].space == nilSpace && nilSpace != Some(s)
    requires x == st[e].(space := Some(s), pos := x.pos, flag := x.flag)
    ensures
      var st' := st[e := x][s := st[s].(members := st[s].members + {e})];
      && SpacesOk(st', spaces, nilSpace) && MembersOk(st', spaces, nilSpace) && Table(st') == Table(st)
      && Snapshot(st') == Snapshot(st)[e := x.MigrateDataTo(s)]
  {
    hide SpacesOk, MembersOk, Table, Snapshot;
    MovedInSeen(st, s, e, x);
    MovedInSpaces(st, spaces, nilSpace, s, e, x);
    NotYetIn(st, spaces, nilSpace, e);
    MembersMoved(st, st[e := x][s := st[s].(members := st[s].members + {e})], spaces, nilSpace, e, Some(s));
  }

  lemma MovedInSeen(st: States, s: EntityId, e: EntityId, x: State)
    requires s in st && e in st && s != e && x == st[e].(space := Some(s), pos := x.pos, flag := x.flag)
    ensures
      var st' := st[e := x][s := st[s].(members := st[s].members + {e})];
      Table(st') == Table(st) && Snapshot(st') == Snapshot(st)[e := x.MigrateDataTo(s)]
  {
  }

  lemma MovedInSpaces(st: States, spaces: set<EntityId>, nilSpace: Option<EntityId>, s: EntityId, e: EntityId, x: State)
    requires SpacesOk(st, spaces, nilSpace) && s in st && e in st && s != e && !st[e].isSpace
    requires x == st[e].(space := x.space, pos := x.pos, flag := x.flag)
    ensures forall ms :: SpacesOk(st[e := x][s := st[s].(members := ms)], spaces, nilSpace)
  {
  }

  lemma NotYetIn(st: States, spaces: set<EntityId>, nilSpace: Option<EntityId>, e: EntityId)
    requires MembersOk(st, spaces, nilSpace) && e in st
    ensures forall k | k in spaces && k in st :: e in st[k].members ==> st[e].space == Some(k) && nilSpace != Some(k)
  {
  }

  /** An entity moves between the sets of two spaces, as its own space changes. */
  lemma MembersMoved(st: States, st': States, spaces: set<EntityId>, nilSpace: Option<EntityId>, e: EntityId, to: Option<EntityId>)
    requires MembersOk(st, spaces, nilSpace) && e in st && to.Some? && to.value in spaces
    requires st'.Keys == st.Keys && st'[e].space == to && forall k | k in st && k != e :: st'[k].space == st[k].space
    requires forall k, x | k in spaces && k in st ::
               x in st'[k].members <==> if x == e then to == Some(k) && to != nilSpace else x in st[k].members
    ensures MembersOk(st', spaces, nilSpace)
  {
    forall s, k | s in spaces && s in st'
      ensures k in st'[s].members <==> k in st' && st'[k].space == Some(s) && nilSpace != Some(s)
    {
      assert k in st[s].members <==> k in st && st[k].space == Some(s) && nilSpace != Some(s);
    }
  }

  /** No other entity changed, but for the sets of spaces. */
  ghost predicate OthersSame(st: States, st': States, e: EntityId)
  {
    forall x | x in st && x != e :: x in st' && st'[x] == st[x].(members := st'[x].members)
  }

  lemma ChangesNone(st: States, e: EntityId)
    ensures OthersSame(st, st, e)
  {
  }

  lemma ChangesOnly(st: States, e: EntityId, x: State)
    ensures OthersSame(st, st[e := x], e) && OthersSame(st, st - {e}, e)
  {
  }

  lemma OthersTrans(st: States, st1: States, st2: States, e: EntityId)
    requires OthersSame(st, st1, e) && OthersSame(st1, st2, e)
    ensures OthersSame(st, st2, e)
  {
  }

  lemma MovesOnlyOne(st: States, nilSpace: Option<EntityId>, s: EntityId, e: EntityId, pos: int)
    requires s in st && e in st && s != e
    ensures OthersSame(st, Entered(st, nilSpace, s, e, pos), e)
  {
    hide OthersSame;
    if nilSpace != Some(s) {
      TwoChange(st, s, e, st[e].(space := Some(s), pos := pos, flag := SyncFlag(true, true)), st[s].members + {e});
    } else {
      ChangesNone(st, e);
    }
  }

  lemma LeavesOnlyOne(st: States, nilSpace: Option<EntityId>, e: EntityId)
    requires e in st && st[e].space.Some? && st[e].space.value in st && st[e].space.value != e
    ensures OthersSame(st, LeftSpace(st, nilSpace, e), e)
  {
    hide OthersSame;
    var s := st[e].space.value;
    if nilSpace != Some(s) {
      TwoChange(st, s, e, st[e].(space := nilSpace), st[s].members - {e});
    } else {
      ChangesNone(st, e);
    }
  }

  lemma TwoChange(st: States, s: EntityId, e: EntityId, x: State, members: set<EntityId>)
    requires s in st && e in st && s != e
    ensures OthersSame(st, st[e := x][s := st[s].(members := members)], e)
  {
  }

  /** space.leave, for the space an entity is in. */
  function LeftSpace(st: States, nilSpace: Option<EntityId>, e: EntityId): States
    requires e in st && st[e].space.Some? && st[e].space.value in st && st[e].space.value != e
  {
    var s := st[e].space.value;
    if nilSpace == Some(s) then st
    else st[e := st[e].(space := nilSpace)][s := st[s].(members := st[s].members - {e})]
  }

  lemma LeftOk(st: States, spaces: set<EntityId>, nilSpace: Option<EntityId>, e: EntityId)
    requires Placed(st, spaces, nilSpace) && e in st && !st[e].isSpace
    ensures st[e].space.Some? && st[e].space.value in st && st[e].space.value != e
    ensures
      var st' := LeftSpace(st, nilSpace, e);
      && Placed(st', spaces, nilSpace) && Table(st') == Table(st)
      && e in st' && st'[e] == st[e].(space := nilSpace)
  {
    var s := st[e].space.value;
    assert s in spaces && s in st && s != e;
    if nilSpace != Some(s) {
      hide MembersOk, Table, SpacesOk;
      LeftSeen(st, nilSpace, s, e);
      MovedInSpaces(st, spaces, nilSpace, s, e, st[e].(space := nilSpace));
      NilIsSpace(st, spaces, nilSpace);
      MembersLeft(st, spaces, nilSpace, s, e);
    }
  }

  lemma MembersLeft(st: States, spaces: set<EntityId>, nilSpace: Option<EntityId>, s: EntityId, e: EntityId)
    requires MembersOk(st, spaces, nilSpace) && e in st && s in st && s != e && st[e].space == Some(s)
    requires nilSpace.Some? && nilSpace.value in spaces
    ensures MembersOk(st[e := st[e].(space := nilSpace)][s := st[s].(members := st[s].members - {e})], spaces, nilSpace)
  {
    var st' := st[e := st[e].(space := nilSpace)][s := st[s].(members := st[s].members - {e})];
    NotYetIn(st, spaces, nilSpace, e);
    assert st'.Keys == st.Keys;
    assert forall k | k in st && k != e :: st'[k].space == st[k].space;
    assert forall k | k in st && k != s :: st'[k].members == st[k].members;
    hide MembersOk;
    MembersMoved(st, st', spaces, nilSpace, e, nilSpace);
  }

  lemma LeftSeen(st: States, nilSpace: Option<EntityId>, s: EntityId, e: EntityId)
    requires e in st && s in st && s != e
    ensures Table(st[e := st[e].(space := nilSpace)][s := st[s].(members := st[s].members - {e})]) == Table(st)
  {
  }

  lemma NilIsSpace(st: States, spaces: set<EntityId>, nilSpace: Option<EntityId>)
    requires SpacesOk(st, spaces, nilSpace)
    ensures nilSpace.Some? && nilSpace.value in spaces
  {
  }

  /** An entity in the nil space that goes, or changes what has nothing to do with spaces. */
  lemma OneOk(st: States, spaces: set<EntityId>, nilSpace: Option<EntityId>, e: EntityId, x: State)
    requires Placed(st, spaces, nilSpace) && (e in st ==> !st[e].isSpace) && !x.isSpace
    ensures (e in st ==> x.space == st[e].space) && (e !in st ==> x.space == nilSpace) ==> Placed(st[e := x], spaces, nilSpace)
    ensures e in st && st[e].space == nilSpace ==> Placed(st - {e}, spaces, nilSpace)
    ensures Table(st[e := x]) == Table(st)[e := x.Row()]
    ensures Table(st - {e}) == Table(st) - {e}
  {
  }

  /** A handler does what the migration protocol says: the same table, the same packets. */
  ghost predicate Follows(st: States, sent: seq<Up>, st': States, sent': seq<Up>, o: Outcome)
  {
    Table(st') == o.table && AllSeen(sent') == AllSeen(sent) + o.sent
  }

  lemma NothingSent(sent: seq<Up>)
    ensures AllSeen(sent) == AllSeen(sent) + []
  {
  }

  lemma OneSent(sent: seq<Up>, up: Up)
    ensures AllSeen(sent + [up]) == AllSeen(sent) + [Seen(up)]
  {
  }

  class EntityObject {
    const id: EntityId
    const isSpace: bool
    var kind: int
    var attrs: seq<CallId>
    var client: Option<ClientId>
    var pos: int
    var timers: int
    var flag: SyncFlag
    var space: Option<EntityId>
    var request: Request
    /** The entry into a space of this game that is in the post queue. */
    var posted: Option<Posting>
    var members: set<EntityId>

    constructor (id: EntityId, md: MigrateData, space: Option<EntityId>)
      ensures this.id == id
      ensures S() == State(md.isSpace, md.kind, md.attrs, md.client, md.pos, md.timers, md.flag, space, NO_REQUEST, None, {})
    {
      this.id, isSpace, kind, attrs, client := id, md.isSpace, md.kind, md.attrs, md.client;
      pos, timers, flag, this.space := md.pos, md.timers, md.flag, space;
      request, posted, members := NO_REQUEST, None, {};
    }

    function S(): State
      reads this
    {
      State(isSpace, kind, attrs, client, pos, timers, flag, space, request, posted, members)
    }

    predicate IsEntering(now: Time)
      reads this
    {
      now < request.time + ENTER_SPACE_REQUEST_TIMEOUT
    }
  }

  class Game {
    var entities: map<EntityId, EntityObject>
    var spaces: set<EntityId>
    var nilSpace: Option<EntityId>
    /** The packets sent to the dispatcher. */
    var sent: seq<Up>

    constructor ()
      ensures entities == map[] && spaces == {} && nilSpace == None && sent == []
    {
      entities, spaces, nilSpace, sent := map[], {}, None, [];
    }

    ghost predicate Ids()
      reads this`entities, entities.Values
    {
      forall e | e in entities :: entities[e].id == e
    }

    ghost function St(): States
      reads this`entities, entities.Values
    {
      map e | e in entities :: entities[e].S()
    }

    ghost predicate Valid()
      reads this`entities, this`spaces, this`nilSpace, entities.Values
    {
      Ids() && Placed(St(), spaces, nilSpace)
    }

    // ---------- Spaces ----------

    /** The set of the entities in a space. */
    method SetMembers(s: EntityId, members: set<EntityId>)
      requires Ids() && s in entities
      modifies entities[s]
      ensures Ids() && St() == old(St())[s := old(St())[s].(members := members)]
    {
      entities[s].members := members;
    }

    /** Where an entity is. */
    method SetPlace(e: EntityId, space: Option<EntityId>, pos: int, flag: SyncFlag)
      requires Ids() && e in entities
      modifies entities[e]
      ensures Ids() && St() == old(St())[e := old(St())[e].(space := space, pos := pos, flag := flag)]
    {
      var entity := entities[e];
      entity.space, entity.pos, entity.flag := space, pos, flag;
    }

    /** space.enter, for an entity in the nil space. */
    method Enter(s: EntityId, e: EntityId, pos: int)
      requires Ids() && s in entities && e in entities && s != e && entities[e].space == nilSpace
      modifies entities[s], entities[e]
      ensures Ids() && St() == Entered(old(St()), nilSpace, s, e, pos)
    {
      hide Ids, St;
      MembersKnown(s);
      if nilSpace == Some(s) {
        return;
      }
      SetPlace(e, Some(s), pos, SyncFlag(true, true));
      MembersKnown(s);
      SetMembers(s, entities[s].members + {e});
    }

    lemma MembersKnown(s: EntityId)
      requires s in entities
      ensures s in St() && St()[s] == entities[s].S()
    {
    }

    /** space.leave: the entity is in the nil space. */
    method Leave(e: EntityId)
      requires Ids() && e in entities
      requires entities[e].space.Some? && entities[e].space.value in entities && entities[e].space.value != e
      modifies entities[e], entities[entities[e].space.value]
      ensures Ids() && St() == LeftSpace(old(St()), nilSpace, e)
    {
      hide Ids, St;
      MembersKnown(e);
      var entity := entities[e];
      if entity.space == nilSpace {
        return;
      }
      var s := entity.space.value;
      SetPlace(e, nilSpace, entity.pos, entity.flag);
      MembersKnown(s);
      SetMembers(s, entities[s].members - {e});
    }

    // ---------- Migration ----------

    method CancelEnterSpace(e: EntityId)
      requires Valid() && e in entities && !entities[e].isSpace
      modifies entities[e], this`sent
      ensures Valid() && St() == old(St())[e := old(St())[e].(request := NO_REQUEST)]
      ensures sent == old(sent) + if old(entities[e].request.isSent) then [Small(CancelMigrate(e))] else []
      ensures Follows(old(St()), old(sent), St(), sent, Migration.CancelEnterSpace(Table(old(St())), e))
    {
      hide Placed, AllSeen, Table, Follows, Ids, St;
      ghost var st := St();
      MembersKnown(e);
      CancelOk(st, spaces, nilSpace, sent, e);
      var isSent := entities[e].request.isSent;
      SetRequest(e, NO_REQUEST);
      if isSent {
        sent := sent + [Small(CancelMigrate(e))];
      }
    }

    method SetRequest(e: EntityId, request: Request)
      requires Ids() && e in entities
      modifies entities[e]
      ensures Ids() && St() == old(St())[e := old(St())[e].(request := request)]
    {
      entities[e].request := request;
    }

    /** EnterSpace: entering the space the entity is in does nothing. */
    method EnterSpace(e: EntityId, spaceid: EntityId, pos: int, now: Time)
      requires Valid() && e in entities && !entities[e].isSpace
      modifies entities[e], this`sent
      ensures Valid()
      ensures
        if !old(entities[e].IsEntering(now)) && spaceid in spaces && old(entities[e].space) == Some(spaceid)
        then St() == old(St()) && sent == old(sent)
        else Follows(old(St()), old(sent), St(), sent,
                     Migration.EnterSpace(Table(old(St())), e, spaceid, spaceid in spaces, now))
      ensures
        var x, y := old(entities[e].S()), entities[e].S();
        if old(entities[e].IsEntering(now)) || (spaceid in spaces && x.space == Some(spaceid)) then y == x && sent == old(sent)
        else
          && y == x.(request := Request(spaceid, pos, now, x.request.isSent), posted := y.posted)
          && y.posted == (if spaceid in spaces then Some(Posting(spaceid, pos)) else x.posted)
          && sent == old(sent) + if spaceid in spaces then [] else [Small(QuerySpace(e, spaceid, 0))]
    {
      hide Placed, AllSeen, Table, Follows;
      ghost var st := St();
      var entity := entities[e];
      assert st[e] == entity.S();
      EnterOk(st, spaces, nilSpace, sent, e, spaceid, pos, now);
      if entity.IsEntering(now) {
        return;
      }
      if spaceid in spaces {
        if entity.space != Some(spaceid) {
          EnterLocalSpace(e, spaceid, pos, now);
          assert St()[e] == entity.S();
        }
      } else {
        RequestMigrateTo(e, spaceid, pos, now);
        assert St()[e] == entity.S();
      }
    }

    method EnterLocalSpace(e: EntityId, spaceid: EntityId, pos: int, now: Time)
      requires Ids() && e in entities
      modifies entities[e]
      ensures Ids() && St() == old(St())[e := old(St())[e].(request := Request(spaceid, pos, now, old(entities[e].request.isSent)),
                                                           posted := Some(Posting(spaceid, pos)))]
    {
      var entity := entities[e];
      entity.request := Request(spaceid, pos, now, entity.request.isSent);
      entity.posted := Some(Posting(spaceid, pos));
    }

    method RequestMigrateTo(e: EntityId, spaceid: EntityId, pos: int, now: Time)
      requires Ids() && e in entities
      modifies entities[e], this`sent
      ensures Ids() && St() == old(St())[e := old(St())[e].(request := Request(spaceid, pos, now, old(entities[e].request.isSent)))]
      ensures sent == old(sent) + [Small(QuerySpace(e, spaceid, 0))]
    {
      SetRequest(e, Request(spaceid, pos, now, entities[e].request.isSent));
      sent := sent + [Small(QuerySpace(e, spaceid, 0))];
    }

    /** The posted half of enterLocalSpace; the space may be gone by then. */
    method ServePosted(e: EntityId)
      requires Valid() && e in entities && !entities[e].isSpace && entities[e].posted.Some?
      modifies entities.Values, this`sent
      ensures Valid()
      ensures Follows(old(St()), old(sent), St(), sent, FinishEnterSpace(Table(old(St())), e))
      ensures
        var p := old(entities[e].posted.value);
        e in entities && entities[e].space == (if p.space in spaces then Some(p.space) else old(entities[e].space))
        && entities[e].pos == if p.space in spaces && nilSpace != Some(p.space) then p.pos else old(entities[e].pos)
      ensures OthersSame(old(St()), St(), e)
    {
      hide Placed, AllSeen, Table, Follows, OthersSame;
      ghost var st, sent0 := St(), sent;
      var entity := entities[e];
      assert st[e] == entity.S();
      PostedOk(st, spaces, nilSpace, sent, e);
      var p := entity.posted.value;
      ClearPosted(e);
      CancelEnterSpace(e);
      assert St()[e] == entity.S();
      ghost var st1 := St();
      assert st1 == st[e := entity.S()];
      ChangesOnly(st, e, entity.S());
      if p.space in spaces {
        MoveTo(p.space, e, p.pos);
        OthersTrans(st, st1, St(), e);
        SameTable(st, sent0, st1, sent, St(), FinishEnterSpace(Table(st), e));
      }
    }

    method ClearPosted(e: EntityId)
      requires Ids() && e in entities
      modifies entities[e]
      ensures Ids() && St() == old(St())[e := old(St())[e].(posted := None)]
    {
      entities[e].posted := None;
    }

    /** Out of one space and into another. */
    method MoveTo(s: EntityId, e: EntityId, pos: int)
      requires Valid() && s in spaces && e in entities && !entities[e].isSpace
      modifies entities.Values
      ensures Valid() && Table(St()) == old(Table(St())) && e in entities && entities[e].space == Some(s)
      ensures entities[e].pos == if nilSpace == Some(s) then old(entities[e].pos) else pos
      ensures OthersSame(old(St()), St(), e)
    {
      hide Placed, Table, LeftSpace, Entered, Snapshot, OthersSame;
      ghost var st := St();
      assert st[e] == entities[e].S();
      LeftOk(st, spaces, nilSpace, e);
      LeavesOnlyOne(st, nilSpace, e);
      Leave(e);
      ghost var st1 := St();
      assert st1[e] == entities[e].S();
      EnteredOk(st1, spaces, nilSpace, s, e, pos);
      EnteredFields(st1, nilSpace, s, e, pos);
      MovesOnlyOne(st1, nilSpace, s, e, pos);
      Enter(s, e, pos);
      OthersTrans(st, st1, St(), e);
      assert St()[e] == entities[e].S();
    }

    method OnQuerySpaceGameIDForMigrateAck(e: EntityId, spaceid: EntityId, spaceGameID: GameId, now: Time)
      requires Valid() && (e in entities ==> !entities[e].isSpace || !entities[e].IsEntering(now))
      modifies entities.Values, this`sent
      ensures Valid()
      ensures Follows(old(St()), old(sent), St(), sent,
                      OnQuerySpaceAck(Table(old(St())), QuerySpace(e, spaceid, spaceGameID), now))
    {
      hide Placed, AllSeen, Table, Follows;
      ghost var st := St();
      QueryAckOk(st, spaces, nilSpace, sent, e, spaceid, spaceGameID, now);
      if e !in entities {
        return;
      }
      var entity := entities[e];
      assert st[e] == entity.S();
      if !entity.IsEntering(now) || entity.request.space != spaceid {
        return;
      }
      if spaceGameID == 0 {
        CancelEnterSpace(e);
        return;
      }
      entity.request := entity.request.(isSent := true);
      sent := sent + [Small(MigrateRequest(e, spaceid, spaceGameID))];
      assert St() == st[e := entity.S()];
    }

    /** OnMigrateRequestAck with realMigrateTo: the entity leaves with everything it has. */
    method OnMigrateRequestAck(e: EntityId, spaceid: EntityId, spaceGameID: GameId, now: Time)
      requires Valid() && (e in entities ==> !entities[e].isSpace || !entities[e].IsEntering(now))
      modifies this`entities, this`sent, entities.Values
      ensures Valid()
      ensures Follows(old(St()), old(sent), St(), sent,
                      Migration.OnMigrateRequestAck(Table(old(St())), MigrateRequest(e, spaceid, spaceGameID), now))
      ensures e in old(entities) && e !in entities ==>
        var x := old(entities[e].S());
        && !x.isSpace && entities == old(entities) - {e}
        && sent == old(sent) + [Real(e, spaceGameID, MigrateData(false, x.kind, x.attrs, x.client, x.pos, x.timers, spaceid, x.flag))]
      ensures OthersSame(old(St()), St(), e)
      ensures e in old(entities) ==>
        (e !in entities <==> old(entities[e].IsEntering(now)) && old(entities[e].request.space) == spaceid && spaceGameID != 0)
    {
      hide Placed, AllSeen, Table, Follows, OthersSame;
      ghost var st, sent0 := St(), sent;
      ChangesNone(st, e);
      MigrateAckOk(st, sent, e, spaceid, spaceGameID, now);
      if e !in entities {
        return;
      }
      var entity := entities[e];
      assert st[e] == entity.S();
      if !entity.IsEntering(now) || entity.request.space != spaceid {
        return;
      }
      if spaceGameID == 0 {
        CancelEnterSpace(e);
        ChangesOnly(st, e, St()[e]);
        return;
      }
      var md := entity.S().MigrateDataTo(spaceid);
      DestroyEntity(e);
      sent := sent + [Real(e, spaceGameID, md)];
      assert Table(st) - {e} == Table(St());
      Went(st, sent0, St(), e, spaceid, spaceGameID, now, md);
    }

    /** destroyEntity of an entity that migrates out. */
    method DestroyEntity(e: EntityId)
      requires Valid() && e in entities && !entities[e].isSpace
      modifies this`entities, entities.Values
      ensures Valid() && entities == old(entities) - {e} && Table(St()) == old(Table(St())) - {e}
      ensures OthersSame(old(St()), St(), e)
    {
      hide Placed, Table, LeftSpace, Snapshot, OthersSame;
      ghost var st := St();
      assert st[e] == entities[e].S();
      LeftOk(st, spaces, nilSpace, e);
      LeavesOnlyOne(st, nilSpace, e);
      Leave(e);
      ghost var st1 := St();
      assert st1[e] == entities[e].S();
      OneOk(st1, spaces, nilSpace, e, st1[e]);
      ChangesOnly(st1, e, st1[e]);
      OthersTrans(st, st1, st1 - {e}, e);
      RemoveEntity(e);
    }

    method RemoveEntity(e: EntityId)
      requires Ids()
      modifies this`entities
      ensures Ids() && entities == old(entities) - {e} && St() == old(St()) - {e}
    {
      entities := entities - {e};
    }

    /** OnRealMigrate: the entity goes on with everything it came with, in its space if that is here. */
    method OnRealMigrate(e: EntityId, md: MigrateData) returns (ok: bool)
      requires Valid() && !md.isSpace
      modifies this`entities, entities.Values
      ensures Valid() && (ok <==> e !in old(entities))
      ensures forall g :: Follows(old(St()), sent, St(), sent,
                                  Migration.OnRealMigrate(Table(old(St())), RealMigrate(e, g, md.attrs)))
      ensures ok ==> e in entities
      ensures ok ==>
        var x := entities[e].S();
        && !x.isSpace && x.kind == md.kind && x.attrs == md.attrs && x.client == md.client && x.pos == md.pos && x.timers == md.timers
        && x.flag == (if md.space in spaces && nilSpace != Some(md.space) then SyncFlag(true, true) else md.flag)
        && x.space == (if md.space in spaces then Some(md.space) else nilSpace)
        && x.request == NO_REQUEST && x.posted == None && x.members == {}
      ensures OthersSame(old(St()), St(), e)
    {
      hide Placed, AllSeen, Table, Entered, Snapshot, Follows, OthersSame;
      ghost var st := St();
      ok := e !in entities;
      Came(st, spaces, nilSpace, sent, e, md);
      ChangesNone(st, e);
      if ok {
        var entity := new EntityObject(e, md, nilSpace);
        ghost var x := entity.S();
        entities := entities[e := entity];
        ghost var st1 := St();
        assert st1 == st[e := x];
        ChangesOnly(st, e, x);
        if md.space in spaces {
          EnteredOk(st1, spaces, nilSpace, md.space, e, md.pos);
          EnteredFields(st1, nilSpace, md.space, e, md.pos);
          MovesOnlyOne(st1, nilSpace, md.space, e, md.pos);
          Enter(md.space, e, md.pos);
          OthersTrans(st, st1, St(), e);
        }
        forall g
          ensures Follows(st, sent, St(), sent, Migration.OnRealMigrate(Table(st), RealMigrate(e, g, md.attrs)))
        {
          SameTable(st, sent, st1, sent, St(), Migration.OnRealMigrate(Table(st), RealMigrate(e, g, md.attrs)));
        }
        assert St()[e] == entities[e].S();
      }
    }

    method OnCall(e: EntityId, id: CallId)
      requires Valid() && (e in entities ==> !entities[e].isSpace)
      modifies entities.Values
      ensures Valid() && sent == old(sent)
      ensures Follows(old(St()), old(sent), St(), sent, Migration.OnCall(Table(old(St())), Call(e, id)))
    {
      hide Placed, AllSeen, Table, Follows;
      ghost var st := St();
      if e in entities {
        var entity := entities[e];
        assert st[e] == entity.S();
        entity.attrs := entity.attrs + [id];
        CallOk(st, spaces, nilSpace, sent, e, id);
        assert St() == st[e := entity.S()];
      } else {
        NoCall(st, sent, e, id);
      }
    }

    // ---------- Freezing and restoring ----------

    /** Freeze: the data of every entity, provided that there is exactly one nil space. */
    method Freeze() returns (freeze: Option<map<EntityId, MigrateData>>)
      requires Ids() && forall e | e in entities :: entities[e].space.Some?
      ensures freeze.Some? <==> exists n :: OnlyNil(St(), n)
      ensures freeze.Some? ==> freeze.value == Snapshot(St())
      ensures freeze.Some? ==> StoresAll(freeze.value, St())
    {
      hide Placed;
      var infos: map<EntityId, MigrateData> := map[];
      var found: Option<EntityId> := None;
      var left := entities.Keys;
      while left != {}
        invariant left <= entities.Keys && infos.Keys == entities.Keys - left
        invariant forall e | e in infos :: infos[e] == Snapshot(St())[e]
        invariant forall e | e in infos && IsNil(St()[e]) :: found == Some(e)
        invariant found.Some? ==> found.value in infos && IsNil(St()[found.value])
        decreases left
      {
        var e :| e in left;
        left := left - {e};
        var entity := entities[e];
        assert St()[e] == entity.S();
        infos := infos[e := entity.S().MigrateDataTo(entity.space.value)];
        if entity.isSpace && entity.kind == 0 {
          if found.Some? {
            TwoNils(St(), e, found.value);
            return None;
          }
          found := Some(e);
        }
      }
      assert infos == Snapshot(St());
      if found == None {
        return None;
      }
      assert OnlyNil(St(), found.value);
      SnapshotStores(St());
      freeze := Some(infos);
    }

    /** restoreEntity, of a frozen entity; its client comes later. */
    method RestoreEntity(e: EntityId, md: MigrateData, ghost f: map<EntityId, MigrateData>, ghost n: EntityId, ghost done: set<EntityId>)
      requires Ids() && GoodFreeze(f, n) && Restored(St(), spaces, nilSpace, f, n, done)
      requires e in f && e !in done && md == f[e].(client := None)
      requires (e != n ==> n in done) && (!md.isSpace ==> md.space in done)
      modifies this, entities.Values
      ensures Ids() && Restored(St(), spaces, nilSpace, f, n, done + {e})
      ensures e in entities && fresh(entities[e]) && entities == old(entities)[e := entities[e]] && sent == old(sent)
    {
      hide Restored, GoodFreeze, Entered, Made;
      ghost var st0, spaces0, nil0 := St(), spaces, nilSpace;
      RestoredMore(st0, spaces0, nil0, f, n, done, e);
      var entity := new EntityObject(e, md, nilSpace);
      assert entity.S() == Made(f[e], nil0) by { MadeFrom(f[e], nil0); }
      entities := entities[e := entity];
      assert St() == st0[e := Made(f[e], nil0)];
      if md.space in spaces {
        Enter(md.space, e, md.pos);
      }
      if md.isSpace {
        OnSpaceCreated(e);
      }
    }

    /** onSpaceCreated, of a space in the nil space; the nil space is in itself. */
    method OnSpaceCreated(e: EntityId)
      requires Ids() && e in entities
      modifies this`spaces, this`nilSpace, entities[e]
      ensures Ids() && spaces == old(spaces) + {e}
      ensures
        if old(entities[e].kind) == 0 then nilSpace == Some(e) && St() == old(St())[e := old(St())[e].(space := Some(e))]
        else nilSpace == old(nilSpace) && St() == old(St())
    {
      var space := entities[e];
      spaces := spaces + {e};
      if space.kind == 0 {
        nilSpace := Some(e);
        space.space := nilSpace;
      }
    }

    /** One of the passes: the entities of one kind are restored, and their clients are put aside. */
    method RestorePass(f: map<EntityId, MigrateData>, pass: nat, ghost n: EntityId) returns (clients: map<EntityId, ClientId>)
      requires Ids() && GoodFreeze(f, n) && pass < 3
      requires Restored(St(), spaces, nilSpace, f, n, Reached(f, pass, f.Keys))
      modifies this, entities.Values
      ensures Ids() && Restored(St(), spaces, nilSpace, f, n, Reached(f, pass + 1, f.Keys)) && sent == old(sent)
      ensures forall e | e in entities :: entities[e] in old(entities.Values) || fresh(entities[e])
      ensures clients == ClientsOf(f, pass, {})
    {
      hide Restored, GoodFreeze, Reached, ClientsOf, Pass;
      clients := map[];
      var left := f.Keys;
      PassStarts(f, pass);
      while left != {}
        invariant left <= f.Keys && Ids() && sent == old(sent)
        invariant Restored(St(), spaces, nilSpace, f, n, Reached(f, pass, left))
        invariant forall e | e in entities :: entities[e] in old(entities.Values) || fresh(entities[e])
        invariant clients == ClientsOf(f, pass, left)
        decreases left
      {
        var e :| e in left;
        PassStep(f, n, pass, left, e);
        if Pass(f[e]) == pass {
          if f[e].client.Some? {
            clients := clients[e := f[e].client.value];
          }
          RestoreEntity(e, f[e].(client := None), f, n, Reached(f, pass, left));
        }
        left := left - {e};
      }
    }

    /** RestoreFreezedEntities in a game that has nothing yet. */
    method Restore(f: map<EntityId, MigrateData>, ghost n: EntityId)
      requires entities == map[] && spaces == {} && nilSpace == None && GoodFreeze(f, n)
      modifies this
      ensures Valid() && sent == old(sent) && nilSpace == Some(n) && Snapshot(St()) == Reflagged(f, n)
    {
      hide Restored, GoodFreeze, Reflagged, Placed, Snapshot, Reached, ClientsOf, Clothed;
      NothingRestored(f, n);
      assert St() == map[];
      var clients0 := RestorePass(f, 0, n);
      var clients1 := RestorePass(f, 1, n);
      var clients2 := RestorePass(f, 2, n);
      AllReached(f);
      ghost var st0 := St();
      AssignClients(clients0 + clients1 + clients2);
      AllRestored(st0, spaces, nilSpace, f, n);
    }

    /** The last loop of RestoreFreezedEntities. */
    method AssignClients(clients: map<EntityId, ClientId>)
      requires Ids()
      modifies entities.Values
      ensures Ids() && St() == Clothed(old(St()), clients)
    {
      hide Clothed;
      ghost var st0 := St();
      var left := clients.Keys;
      NoneClothed(st0);
      ghost var done: map<EntityId, ClientId> := map[];
      while left != {}
        invariant left <= clients.Keys && Ids() && St() == Clothed(st0, done)
        invariant done.Keys == clients.Keys - left && forall e | e in done :: done[e] == clients[e]
        decreases left
      {
        var e :| e in left;
        left := left - {e};
        ClothedMore(st0, done, e, clients[e]);
        ClothOne(e, clients[e]);
        done := done[e := clients[e]];
      }
      assert done == clients;
    }

    method ClothOne(e: EntityId, c: ClientId)
      requires Ids()
      modifies entities.Values
      ensures Ids() && St() == if e in old(St()) then old(St())[e := old(St())[e].(client := Some(c))] else old(St())
    {
      if e in entities {
        entities[e].client := Some(c);
      }
    }
  }

  // ---------- Freezing and restoring ----------

  predicate IsNil(x: State)
  {
    x.isSpace && x.kind == 0
  }

  ghost predicate OnlyNil(st: States, n: EntityId)
  {
    n in st && IsNil(st[n]) && forall e | e in st && IsNil(st[e]) :: e == n
  }

  lemma TwoNils(st: States, a: EntityId, b: EntityId)
    requires a in st && b in st && a != b && IsNil(st[a]) && IsNil(st[b])
    ensures !exists n :: OnlyNil(st, n)
  {
  }

  /** Frozen data with one nil space: every entity is in a space, and the spaces are in the nil space. */
  ghost predicate GoodFreeze(f: map<EntityId, MigrateData>, n: EntityId)
  {
    && n in f && f[n].isSpace
    && (forall e | e in f :: f[e].space in f && f[f[e].space].isSpace)
    && (forall e | e in f && f[e].isSpace :: f[e].space == n && (f[e].kind == 0 <==> e == n))
  }

  /** What freezing stores is such data. */
  lemma SnapshotGood(st: States, spaces: set<EntityId>, nilSpace: Option<EntityId>)
    requires Placed(st, spaces, nilSpace)
    ensures GoodFreeze(Snapshot(st), nilSpace.value) && OnlyNil(st, nilSpace.value)
  {
    hide Placed, SpacesOk, MembersOk;
    var f := Snapshot(st);
    forall e | e in st
      ensures st[e].space.Some? && st[e].space.value in st && st[st[e].space.value].isSpace
      ensures st[e].isSpace ==> st[e].space == nilSpace && (st[e].kind == 0 <==> Some(e) == nilSpace)
    {
      SpaceOf(st, spaces, nilSpace, e);
    }
    assert nilSpace.Some? && nilSpace.value in st && st[nilSpace.value].isSpace by { SpaceOf(st, spaces, nilSpace, 0); }
    SpaceOf(st, spaces, nilSpace, nilSpace.value);
  }

  lemma SpaceOf(st: States, spaces: set<EntityId>, nilSpace: Option<EntityId>, e: EntityId)
    requires Placed(st, spaces, nilSpace)
    ensures nilSpace.Some? && nilSpace.value in st && st[nilSpace.value].isSpace
    ensures e in st ==> st[e].space.Some? && st[e].space.value in st && st[st[e].space.value].isSpace
    ensures e in st && st[e].isSpace ==> st[e].space == nilSpace && (st[e].kind == 0 <==> Some(e) == nilSpace)
  {
  }

  /** The pass that restores an entity: the nil space, the other spaces, and the rest. */
  function Pass(md: MigrateData): nat
  {
    if !md.isSpace then 2 else if md.kind != 0 then 1 else 0
  }

  /** The entities restored when `left` are still to be looked at in a pass. */
  ghost function Reached(f: map<EntityId, MigrateData>, pass: nat, left: set<EntityId>): set<EntityId>
  {
    set e | e in f && (Pass(f[e]) < pass || (Pass(f[e]) == pass && e !in left))
  }

  ghost function ClientsOf(f: map<EntityId, MigrateData>, pass: nat, left: set<EntityId>): map<EntityId, ClientId>
  {
    map e | e in f && e !in left && Pass(f[e]) == pass && f[e].client.Some? :: f[e].client.value
  }

  lemma PassStarts(f: map<EntityId, MigrateData>, pass: nat)
    ensures ClientsOf(f, pass, f.Keys) == map[]
    ensures Reached(f, pass, {}) == Reached(f, pass + 1, f.Keys)
  {
  }

  /** Every space is restored before its members. */
  lemma PassStep(f: map<EntityId, MigrateData>, n: EntityId, pass: nat, left: set<EntityId>, e: EntityId)
    requires GoodFreeze(f, n) && e in left && left <= f.Keys
    ensures
      if Pass(f[e]) == pass then
        var done := Reached(f, pass, left);
        && e !in done && Reached(f, pass, left - {e}) == done + {e}
        && (e != n ==> n in done) && (!f[e].isSpace ==> f[e].space in done)
        && ClientsOf(f, pass, left - {e}) ==
             if f[e].client.Some? then ClientsOf(f, pass, left)[e := f[e].client.value] else ClientsOf(f, pass, left)
      else Reached(f, pass, left - {e}) == Reached(f, pass, left) && ClientsOf(f, pass, left - {e}) == ClientsOf(f, pass, left)
  {
  }

  ghost function AllClients(f: map<EntityId, MigrateData>): map<EntityId, ClientId>
  {
    map e | e in f && f[e].client.Some? :: f[e].client.value
  }

  lemma AllReached(f: map<EntityId, MigrateData>)
    ensures Reached(f, 3, f.Keys) == f.Keys
    ensures ClientsOf(f, 0, {}) + ClientsOf(f, 1, {}) + ClientsOf(f, 2, {}) == AllClients(f)
  {
    assert forall e | e in f :: Pass(f[e]) == 0 || Pass(f[e]) == 1 || Pass(f[e]) == 2;
  }

  /** Entering a space on restoring marks the entity for synchronisation; the nil space is not entered. */
  function FlagBack(md: MigrateData, n: EntityId): SyncFlag
  {
    if md.space == n then md.flag else SyncFlag(true, true)
  }

  ghost function Reflagged(f: map<EntityId, MigrateData>, n: EntityId): map<EntityId, MigrateData>
  {
    map e | e in f :: f[e].(flag := FlagBack(f[e], n))
  }

  /** An entity as it is restored, before clients are assigned; `in1` are its members. */
  function Back(md: MigrateData, n: EntityId, in1: set<EntityId>): State
  {
    State(md.isSpace, md.kind, md.attrs, None, md.pos, md.timers, FlagBack(md, n), Some(md.space), NO_REQUEST, None, in1)
  }

  ghost function MembersBack(f: map<EntityId, MigrateData>, n: EntityId, done: set<EntityId>, s: EntityId): set<EntityId>
  {
    if s == n then {} else set x | x in done && x in f && f[x].space == s
  }

  ghost function SpacesIn(f: map<EntityId, MigrateData>, done: set<EntityId>): set<EntityId>
  {
    set e | e in done && e in f && f[e].isSpace
  }

  ghost predicate BackAt(st: States, f: map<EntityId, MigrateData>, n: EntityId, done: set<EntityId>, e: EntityId)
  {
    e in f && e in st && st[e] == Back(f[e], n, MembersBack(f, n, done, e))
  }

  ghost predicate Closed(f: map<EntityId, MigrateData>, done: set<EntityId>)
  {
    done <= f.Keys && forall x | x in done :: f[x].space in done
  }

  /** The entities in `done` are restored, and nothing else is there. */
  ghost predicate Restored(st: States, spaces: set<EntityId>, nilSpace: Option<EntityId>,
                           f: map<EntityId, MigrateData>, n: EntityId, done: set<EntityId>)
  {
    && st.Keys == done
    && spaces == SpacesIn(f, done)
    && nilSpace == (if n in done then Some(n) else None)
    && Closed(f, done)
    && (forall e | e in done :: BackAt(st, f, n, done, e))
  }

  lemma NothingRestored(f: map<EntityId, MigrateData>, n: EntityId)
    ensures Restored(map[], {}, None, f, n, Reached(f, 0, f.Keys))
  {
    assert Reached(f, 0, f.Keys) == {};
  }

  /** An entity as it comes out of its constructor, with its client put aside. */
  function Made(md: MigrateData, nilSpace: Option<EntityId>): State
  {
    State(md.isSpace, md.kind, md.attrs, None, md.pos, md.timers, md.flag, nilSpace, NO_REQUEST, None, {})
  }

  lemma MadeFrom(md: MigrateData, nilSpace: Option<EntityId>)
    ensures Made(md, nilSpace) ==
      State(md.isSpace, md.kind, md.attrs, None, md.pos, md.timers, md.flag, nilSpace, NO_REQUEST, None, {})
  {
  }

  /** What restoring one more entity does. */
  lemma RestoredMore(st: States, spaces: set<EntityId>, nilSpace: Option<EntityId>,
                     f: map<EntityId, MigrateData>, n: EntityId, done: set<EntityId>, e: EntityId)
    requires GoodFreeze(f, n) && Restored(st, spaces, nilSpace, f, n, done)
    requires e in f && e !in done && (e != n ==> n in done) && (!f[e].isSpace ==> f[e].space in done)
    ensures
      var md := f[e];
      var st1 := st[e := Made(md, nilSpace)];
      && (md.space in spaces ==> md.space in st1 && md.space != e)
      && (var st2 := if md.space in spaces then Entered(st1, nilSpace, md.space, e, md.pos) else st1;
          && e in st2 && st2[e].kind == md.kind
          && if !md.isSpace then Restored(st2, spaces, nilSpace, f, n, done + {e})
             else if md.kind == 0 then
               Restored(st2[e := st2[e].(space := Some(e))], spaces + {e}, Some(e), f, n, done + {e})
             else Restored(st2, spaces + {e}, nilSpace, f, n, done + {e}))
  {
    var md := f[e];
    assert md.isSpace ==> md.space == n && (md.kind == 0 <==> e == n);
    hide GoodFreeze, MembersBack, Closed;
    if md.isSpace {
      OneBack(st, spaces, f, n, done, e, st[e := Back(md, n, {})]);
      hide Restored;
    } else {
      OtherBack(st, spaces, nilSpace, f, n, done, e);
      hide Restored;
    }
  }

  /** Nothing is restored before its space, so one more entity is a member of its own space only. */
  lemma MembersGrow(f: map<EntityId, MigrateData>, n: EntityId, done: set<EntityId>, e: EntityId, s: EntityId)
    requires e in f && e !in done && Closed(f, done) && (f[e].space != e || e == n)
    ensures MembersBack(f, n, done + {e}, s) ==
      if s == e then {} else if s == f[e].space && s != n then MembersBack(f, n, done, s) + {e} else MembersBack(f, n, done, s)
  {
  }

  lemma KeysMore(st: States, done: set<EntityId>, e: EntityId, x: State)
    requires st.Keys == done
    ensures st[e := x].Keys == done + {e}
  {
  }

  lemma ClosedMore(f: map<EntityId, MigrateData>, done: set<EntityId>, e: EntityId)
    requires e in f && Closed(f, done) && f[e].space in done + {e}
    ensures Closed(f, done + {e})
  {
  }

  lemma SpacesGrow(f: map<EntityId, MigrateData>, done: set<EntityId>, e: EntityId)
    requires e in f && done <= f.Keys
    ensures SpacesIn(f, done + {e}) == if f[e].isSpace then SpacesIn(f, done) + {e} else SpacesIn(f, done)
  {
  }

  /** A space comes back into the nil space, without members yet. */
  lemma OneBack(st: States, spaces: set<EntityId>, f: map<EntityId, MigrateData>, n: EntityId, done: set<EntityId>,
                e: EntityId, st': States)
    requires e in f && e !in done && f[e].isSpace && f[e].space == n && (e != n ==> n in done) && done <= f.Keys
    requires st.Keys == done && spaces == SpacesIn(f, done) && Closed(f, done)
    requires forall x | x in done :: BackAt(st, f, n, done, x)
    requires st' == st[e := Back(f[e], n, {})]
    ensures Restored(st', spaces + {e}, Some(n), f, n, done + {e})
  {
    SpacesGrow(f, done, e);
    hide MembersBack, Back, Closed, BackAt, SpacesIn;
    ClosedMore(f, done, e);
    KeysMore(st, done, e, Back(f[e], n, {}));
    assert n in done + {e};
    forall x | x in done + {e}
      ensures BackAt(st', f, n, done + {e}, x)
    {
      OneBackAt(st, f, n, done, e, x);
    }
  }

  lemma OneBackAt(st: States, f: map<EntityId, MigrateData>, n: EntityId, done: set<EntityId>, e: EntityId, x: EntityId)
    requires e in f && e !in done && f[e].space == n && Closed(f, done)
    requires x == e || (x in done && BackAt(st, f, n, done, x))
    ensures BackAt(st[e := Back(f[e], n, {})], f, n, done + {e}, x)
  {
    hide MembersBack, Back;
    MembersGrow(f, n, done, e, x);
  }

  lemma OtherBackAt(st: States, f: map<EntityId, MigrateData>, n: EntityId, done: set<EntityId>, e: EntityId, x: EntityId)
    requires e in f && e !in done && f[e].space in done && f[e].space != e && Closed(f, done)
    requires x == e || (x in done && BackAt(st, f, n, done, x))
    requires f[e].space in st
    ensures BackAt(Entered(st[e := Made(f[e], Some(n))], Some(n), f[e].space, e, f[e].pos), f, n, done + {e}, x)
  {
    hide MembersBack;
    MembersGrow(f, n, done, e, x);
  }

  /** Another entity comes back, and enters its space. */
  lemma OtherBack(st: States, spaces: set<EntityId>, nilSpace: Option<EntityId>, f: map<EntityId, MigrateData>, n: EntityId,
                  done: set<EntityId>, e: EntityId)
    requires GoodFreeze(f, n) && Restored(st, spaces, nilSpace, f, n, done)
    requires e in f && e !in done && n in done && !f[e].isSpace && f[e].space in done
    ensures
      var md := f[e];
      var st1 := st[e := Made(md, nilSpace)];
      && md.space in spaces && md.space in st1 && md.space != e
      && Restored(Entered(st1, nilSpace, md.space, e, md.pos), spaces, nilSpace, f, n, done + {e})
  {
    SpacesGrow(f, done, e);
    assert f[e].space in spaces by { SpaceInside(f, n, e); }
    hide MembersBack, GoodFreeze, Closed, BackAt, Back, Made, SpacesIn;
    ClosedMore(f, done, e);
    var md := f[e];
    var s := md.space;
    assert f[s].isSpace by { SpaceInside(f, n, e); }
    var st2 := Entered(st[e := Made(md, nilSpace)], nilSpace, s, e, md.pos);
    assert nilSpace == Some(n) && st2.Keys == done + {e};
    forall x | x in done + {e}
      ensures BackAt(st2, f, n, done + {e}, x)
    {
      OtherBackAt(st, f, n, done, e, x);
    }
  }

  lemma SpaceInside(f: map<EntityId, MigrateData>, n: EntityId, e: EntityId)
    requires GoodFreeze(f, n) && e in f
    ensures f[e].space in f && f[f[e].space].isSpace
  {
  }

  /** The clients are put back. */
  ghost function Clothed(st: States, clients: map<EntityId, ClientId>): States
  {
    map e | e in st :: if e in clients then st[e].(client := Some(clients[e])) else st[e]
  }

  lemma ClothedMore(st: States, clients: map<EntityId, ClientId>, e: EntityId, c: ClientId)
    ensures
      var st1 := Clothed(st, clients);
      Clothed(st, clients[e := c]) == if e in st then st1[e := st1[e].(client := Some(c))] else st1
  {
  }

  lemma NoneClothed(st: States)
    ensures Clothed(st, map[]) == st
  {
  }

  lemma AllRestored(st0: States, spaces: set<EntityId>, nilSpace: Option<EntityId>, f: map<EntityId, MigrateData>, n: EntityId)
    requires GoodFreeze(f, n) && Restored(st0, spaces, nilSpace, f, n, f.Keys)
    ensures
      var st := Clothed(st0, AllClients(f));
      nilSpace == Some(n) && Placed(st, spaces, nilSpace) && Snapshot(st) == Reflagged(f, n)
  {
    var st := Clothed(st0, AllClients(f));
    assert nilSpace == Some(n) && spaces == SpacesIn(f, f.Keys);
    forall e | e in f
      ensures e in st && st[e] == Back(f[e], n, MembersBack(f, n, f.Keys, e)).(client := f[e].client)
    {
      assert BackAt(st0, f, n, f.Keys, e);
    }
    assert st.Keys == f.Keys;
    hide Restored, Clothed, AllClients;
    FullyBack(st, spaces, f, n);
  }

  lemma FullyBack(st: States, spaces: set<EntityId>, f: map<EntityId, MigrateData>, n: EntityId)
    requires GoodFreeze(f, n) && spaces == SpacesIn(f, f.Keys) && st.Keys == f.Keys
    requires forall e | e in f :: st[e] == Back(f[e], n, MembersBack(f, n, f.Keys, e)).(client := f[e].client)
    ensures Placed(st, spaces, Some(n)) && Snapshot(st) == Reflagged(f, n)
  {
    SpacesBack(st, spaces, f, n);
    SnapshotBack(st, f, n);
    hide SpacesOk, Snapshot, Reflagged, GoodFreeze, SpaceKnown, SetsOk;
    PlacesBack(st, spaces, f, n);
    SetsBack(st, spaces, f, n);
  }

  lemma SpacesBack(st: States, spaces: set<EntityId>, f: map<EntityId, MigrateData>, n: EntityId)
    requires GoodFreeze(f, n) && spaces == SpacesIn(f, f.Keys) && st.Keys == f.Keys
    requires forall e | e in f :: st[e] == Back(f[e], n, MembersBack(f, n, f.Keys, e)).(client := f[e].client)
    ensures SpacesOk(st, spaces, Some(n))
  {
    hide MembersBack;
  }

  lemma SnapshotBack(st: States, f: map<EntityId, MigrateData>, n: EntityId)
    requires st.Keys == f.Keys
    requires forall e | e in f :: st[e] == Back(f[e], n, MembersBack(f, n, f.Keys, e)).(client := f[e].client)
    ensures Snapshot(st) == Reflagged(f, n)
  {
    hide MembersBack;
  }

  lemma MemberBack(f: map<EntityId, MigrateData>, n: EntityId, s: EntityId, e: EntityId)
    ensures e in MembersBack(f, n, f.Keys, s) <==> s != n && e in f && f[e].space == s
  {
  }

  lemma PlacesBack(st: States, spaces: set<EntityId>, f: map<EntityId, MigrateData>, n: EntityId)
    requires GoodFreeze(f, n) && spaces == SpacesIn(f, f.Keys) && st.Keys == f.Keys
    requires forall e | e in f :: st[e] == Back(f[e], n, MembersBack(f, n, f.Keys, e)).(client := f[e].client)
    ensures SpaceKnown(st, spaces)
  {
    hide GoodFreeze, MembersBack, SpacesIn;
    forall e | e in st
      ensures st[e].space.Some? && st[e].space.value in spaces
    {
      SpaceInside(f, n, e);
      IsSpaceIn(f, f[e].space);
    }
  }

  lemma IsSpaceIn(f: map<EntityId, MigrateData>, s: EntityId)
    ensures s in SpacesIn(f, f.Keys) <==> s in f && f[s].isSpace
  {
  }

  lemma SetsBack(st: States, spaces: set<EntityId>, f: map<EntityId, MigrateData>, n: EntityId)
    requires st.Keys == f.Keys
    requires forall e | e in f :: st[e] == Back(f[e], n, MembersBack(f, n, f.Keys, e)).(client := f[e].client)
    ensures SetsOk(st, spaces, Some(n))
  {
    hide MembersBack;
    forall s, e | s in spaces && s in st
      ensures e in st[s].members <==> e in st && st[e].space == Some(s) && Some(n) != Some(s)
    {
      MemberBack(f, n, s, e);
      assert st[s].members == MembersBack(f, n, f.Keys, s);
    }
  }

  /**
    A game frozen and restored: the same entities with the same attributes, clients, positions,
    timers and spaces; only the synchronisation flags of entities outside the nil space are set.
  */
  method FreezeThenRestore(g: Game) returns (restored: Game)
    requires g.Valid()
    ensures fresh(restored) && restored.Valid() && restored.nilSpace == old(g.nilSpace)
    ensures restored.St().Keys == old(g.St()).Keys
    ensures forall e | e in old(g.St()) :: SameAfter(old(g.St())[e], restored.St()[e], old(g.nilSpace))
  {
    ghost var st, nilSpace := g.St(), g.nilSpace;
    AllInSpaces(st, g.spaces, nilSpace);
    FreezeReady(g);
    hide *;
    restored := RestoreFrozen(g, Snapshot(st), nilSpace.value);
    BackAsBefore(restored, st, nilSpace.value);
  }

  /** The same in terms of what freezing stores. */
  method RestoreFrozen(g: Game, ghost f: map<EntityId, MigrateData>, ghost n: EntityId) returns (restored: Game)
    requires g.Ids() && (forall e | e in g.entities :: g.entities[e].space.Some?)
    requires f == Snapshot(g.St()) && GoodFreeze(f, n) && OnlyNil(g.St(), n)
    ensures fresh(restored) && restored.Valid() && restored.nilSpace == Some(n)
    ensures Snapshot(restored.St()) == Reflagged(f, n)
  {
    hide *;
    var freeze := g.Freeze();
    assert OnlyNil(g.St(), n);
    restored := new Game();
    restored.Restore(freeze.value, n);
  }

  /** What restoring keeps, and what it does to the synchronisation flags. */
  ghost predicate SameAfter(x: State, y: State, nilSpace: Option<EntityId>)
  {
    && y.isSpace == x.isSpace && y.kind == x.kind && y.attrs == x.attrs && y.client == x.client
    && y.pos == x.pos && y.timers == x.timers && y.space == x.space
    && y.flag == if x.space == nilSpace then x.flag else SyncFlag(true, true)
  }

  lemma AllInSpaces(st: States, spaces: set<EntityId>, nilSpace: Option<EntityId>)
    requires Placed(st, spaces, nilSpace)
    ensures forall e | e in st :: st[e].space.Some?
  {
  }

  lemma BackAsBefore(g: Game, st: States, n: EntityId)
    requires g.Valid() && g.nilSpace == Some(n) && (forall e | e in st :: st[e].space.Some?)
    requires Snapshot(g.St()) == Reflagged(Snapshot(st), n)
    ensures g.St().Keys == st.Keys && forall e | e in st :: SameAfter(st[e], g.St()[e], Some(n))
  {
    AllInSpaces(g.St(), g.spaces, g.nilSpace);
    SnapshotsAgree(g.St(), st, n);
  }

  lemma SnapshotsAgree(st': States, st: States, n: EntityId)
    requires Snapshot(st') == Reflagged(Snapshot(st), n)
    requires (forall e | e in st :: st[e].space.Some?) && (forall e | e in st' :: st'[e].space.Some?)
    ensures st'.Keys == st.Keys && forall e | e in st :: SameAfter(st[e], st'[e], Some(n))
  {
    SnapshotStores(st);
    SnapshotStores(st');
    assert st'.Keys == Snapshot(st').Keys == Snapshot(st).Keys == st.Keys;
    forall e | e in st
      ensures SameAfter(st[e], st'[e], Some(n))
    {
      assert Stores(Snapshot(st)[e], st[e]) && Stores(Snapshot(st')[e], st'[e]);
      assert Snapshot(st')[e] == Snapshot(st)[e].(flag := FlagBack(Snapshot(st)[e], n));
    }
  }

  /**
    A migration between two games, from the answer on which the entity leaves to its arrival: it
    goes on with all it had. Its position is the one it had, not the one it asked for.
  */
  method Migrate(from: Game, to: Game, e: EntityId, spaceid: EntityId, gameid: GameId, now: Time) returns (arrived: bool)
    requires from.Valid() && to.Valid() && from != to && from.entities.Values !! to.entities.Values
    requires e in from.entities && !from.entities[e].isSpace
    modifies from, to, from.entities.Values, to.entities.Values
    ensures from.Valid() && to.Valid()
    ensures arrived <==>
      old(from.entities[e].IsEntering(now)) && old(from.entities[e].request.space) == spaceid && gameid != 0 && e !in old(to.entities)
    ensures arrived ==> e !in from.entities && e in to.entities
    ensures arrived ==>
      var x, y := old(from.entities[e].S()), to.entities[e].S();
      && !y.isSpace && y.kind == x.kind && y.attrs == x.attrs && y.client == x.client && y.timers == x.timers && y.pos == x.pos
      && y.space == if spaceid in to.spaces then Some(spaceid) else to.nilSpace
  {
    hide Placed, Table, Follows, Snapshot;
    arrived := false;
    from.OnMigrateRequestAck(e, spaceid, gameid, now);
    if e !in from.entities {
      var packet := from.sent[|from.sent| - 1];
      arrived := to.OnRealMigrate(packet.eid, packet.md);
    }
  }

  lemma FreezeReady(g: Game)
    requires g.Valid()
    ensures g.Ids() && g.nilSpace.Some? && forall e | e in g.entities :: g.entities[e].space.Some?
    ensures GoodFreeze(Snapshot(g.St()), g.nilSpace.value) && OnlyNil(g.St(), g.nilSpace.value)
  {
    SnapshotGood(g.St(), g.spaces, g.nilSpace);
    SpaceOf(g.St(), g.spaces, g.nilSpace, 0);
    assert forall e | e in g.entities :: g.St()[e] == g.entities[e].S();
  }

  lemma SameTable(st: States, sent: seq<Up>, st1: States, sent1: seq<Up>, st2: States, o: Outcome)
    ensures Table(st2) == Table(st1) && Follows(st, sent, st1, sent1, o) ==> Follows(st, sent, st2, sent1, o)
  {
  }

  lemma CancelOk(st: States, spaces: set<EntityId>, nilSpace: Option<EntityId>, sent: seq<Up>, e: EntityId)
    requires Placed(st, spaces, nilSpace) && e in st && !st[e].isSpace
    ensures
      var st' := st[e := st[e].(request := NO_REQUEST)];
      var sent' := sent + if st[e].request.isSent then [Small(CancelMigrate(e))] else [];
      Placed(st', spaces, nilSpace) && Follows(st, sent, st', sent', Migration.CancelEnterSpace(Table(st), e))
  {
    OneOk(st, spaces, nilSpace, e, st[e].(request := NO_REQUEST));
    hide Placed;
    NothingSent(sent);
    assert sent + [] == sent;
    OneSent(sent, Small(CancelMigrate(e)));
  }

  lemma EnterOk(st: States, spaces: set<EntityId>, nilSpace: Option<EntityId>, sent: seq<Up>, e: EntityId,
                spaceid: EntityId, pos: int, now: Time)
    requires Placed(st, spaces, nilSpace) && e in st && !st[e].isSpace
    ensures
      var here := spaceid in spaces;
      var o := Migration.EnterSpace(Table(st), e, spaceid, here, now);
      var x := st[e].(request := Request(spaceid, pos, now, st[e].request.isSent));
      var st' := st[e := if here then x.(posted := Some(Posting(spaceid, pos))) else x];
      var sent' := if here then sent else sent + [Small(QuerySpace(e, spaceid, 0))];
      if now < st[e].request.time + ENTER_SPACE_REQUEST_TIMEOUT then Follows(st, sent, st, sent, o)
      else Placed(st', spaces, nilSpace) && Follows(st, sent, st', sent', o)
  {
    var x := st[e].(request := Request(spaceid, pos, now, st[e].request.isSent));
    OneOk(st, spaces, nilSpace, e, if spaceid in spaces then x.(posted := Some(Posting(spaceid, pos))) else x);
    hide Placed;
    NothingSent(sent);
    OneSent(sent, Small(QuerySpace(e, spaceid, 0)));
  }

  lemma PostedOk(st: States, spaces: set<EntityId>, nilSpace: Option<EntityId>, sent: seq<Up>, e: EntityId)
    requires Placed(st, spaces, nilSpace) && e in st && !st[e].isSpace
    ensures
      var st1 := st[e := st[e].(posted := None)];
      && Placed(st1, spaces, nilSpace)
      && Migration.CancelEnterSpace(Table(st1), e) == FinishEnterSpace(Table(st), e)
      && forall st2, sent2, o :: Follows(st1, sent, st2, sent2, o) <==> Follows(st, sent, st2, sent2, o)
  {
    OneOk(st, spaces, nilSpace, e, st[e].(posted := None));
  }

  lemma QueryAckOk(st: States, spaces: set<EntityId>, nilSpace: Option<EntityId>, sent: seq<Up>, e: EntityId,
                   spaceid: EntityId, gameid: GameId, now: Time)
    requires Placed(st, spaces, nilSpace)
    ensures
      var o := OnQuerySpaceAck(Table(st), QuerySpace(e, spaceid, gameid), now);
      if e !in st || now >= st[e].request.time + ENTER_SPACE_REQUEST_TIMEOUT || st[e].request.space != spaceid
      then Follows(st, sent, st, sent, o)
      else if gameid == 0 then o == Migration.CancelEnterSpace(Table(st), e)
      else if st[e].isSpace then true
      else
        var st' := st[e := st[e].(request := st[e].request.(isSent := true))];
        Placed(st', spaces, nilSpace) && Follows(st, sent, st', sent + [Small(MigrateRequest(e, spaceid, gameid))], o)
  {
    NothingSent(sent);
    OneSent(sent, Small(MigrateRequest(e, spaceid, gameid)));
    if e in st && !st[e].isSpace {
      OneOk(st, spaces, nilSpace, e, st[e].(request := st[e].request.(isSent := true)));
    }
  }

  lemma MigrateAckOk(st: States, sent: seq<Up>, e: EntityId, spaceid: EntityId, gameid: GameId, now: Time)
    ensures
      var o := Migration.OnMigrateRequestAck(Table(st), MigrateRequest(e, spaceid, gameid), now);
      if e !in st || now >= st[e].request.time + ENTER_SPACE_REQUEST_TIMEOUT || st[e].request.space != spaceid
      then Follows(st, sent, st, sent, o)
      else gameid == 0 ==> o == Migration.CancelEnterSpace(Table(st), e)
  {
    NothingSent(sent);
  }

  lemma Went(st: States, sent: seq<Up>, st': States, e: EntityId, spaceid: EntityId, gameid: GameId, now: Time, md: MigrateData)
    requires e in st && now < st[e].request.time + ENTER_SPACE_REQUEST_TIMEOUT && st[e].request.space == spaceid
    requires gameid != 0 && md.attrs == st[e].attrs && Table(st') == Table(st) - {e}
    ensures Follows(st, sent, st', sent + [Real(e, gameid, md)],
                    Migration.OnMigrateRequestAck(Table(st), MigrateRequest(e, spaceid, gameid), now))
  {
    OneSent(sent, Real(e, gameid, md));
  }

  lemma Came(st: States, spaces: set<EntityId>, nilSpace: Option<EntityId>, sent: seq<Up>, e: EntityId, md: MigrateData)
    requires Placed(st, spaces, nilSpace) && !md.isSpace
    ensures
      var x := State(false, md.kind, md.attrs, md.client, md.pos, md.timers, md.flag, nilSpace, NO_REQUEST, None, {});
      var st' := if e in st then st else st[e := x];
      && Placed(st', spaces, nilSpace)
      && forall g :: Follows(st, sent, st', sent, Migration.OnRealMigrate(Table(st), RealMigrate(e, g, md.attrs)))
  {
    var x := State(false, md.kind, md.attrs, md.client, md.pos, md.timers, md.flag, nilSpace, NO_REQUEST, None, {});
    if e !in st {
      assert forall s | s in spaces :: s in st;
      NewOk(st, spaces, nilSpace, e, x);
    }
    hide Placed;
    NothingSent(sent);
  }

  lemma NewOk(st: States, spaces: set<EntityId>, nilSpace: Option<EntityId>, e: EntityId, x: State)
    requires Placed(st, spaces, nilSpace) && e !in st && !x.isSpace && x.space == nilSpace
    ensures Placed(st[e := x], spaces, nilSpace) && Table(st[e := x]) == Table(st)[e := x.Row()]
  {
    OneOk(st, spaces, nilSpace, e, x);
  }

  lemma EnteredFields(st: States, nilSpace: Option<EntityId>, s: EntityId, e: EntityId, pos: int)
    requires s in st && e in st && s != e
    ensures
      var st' := Entered(st, nilSpace, s, e, pos);
      e in st' && st'[e] == if nilSpace == Some(s) then st[e] else st[e].(space := Some(s), pos := pos, flag := SyncFlag(true, true))
  {
  }

  lemma CallOk(st: States, spaces: set<EntityId>, nilSpace: Option<EntityId>, sent: seq<Up>, e: EntityId, id: CallId)
    requires Placed(st, spaces, nilSpace) && e in st && !st[e].isSpace
    ensures
      var st' := st[e := st[e].(attrs := st[e].attrs + [id])];
      Placed(st', spaces, nilSpace) && Follows(st, sent, st', sent, Migration.OnCall(Table(st), Call(e, id)))
  {
    OneOk(st, spaces, nilSpace, e, st[e].(attrs := st[e].attrs + [id]));
    hide Placed;
    NothingSent(sent);
  }

  lemma NoCall(st: States, sent: seq<Up>, e: EntityId, id: CallId)
    ensures e !in st ==> Follows(st, sent, st, sent, Migration.OnCall(Table(st), Call(e, id)))
  {
    NothingSent(sent);
  }
}
