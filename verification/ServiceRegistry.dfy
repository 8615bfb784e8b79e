/**
  The game's replica of the service registry (srvdis.go), fed by the packets of its dispatchers.
*/
module ServiceRegistry {
  import opened Bytes
  import opened DispatcherState
  import opened Migration

  /** Which dispatcher keeps a service; all games and dispatchers use the same hash. */
  type Home = Str -> nat

  /** The part of the replica that comes from one dispatcher. */
  function Share(srvmap: Services, home: Home, dispid: nat): Services
  {
    map srvid | srvid in srvmap && home(srvid) == dispid :: srvmap[srvid]
  }

  /** What a packet of dispatcher `dispid` does to the replica. */
  function Watched(srvmap: Services, pkt: Packet, home: Home, dispid: nat): Services
  {
    match pkt
    case SrvdisRegister(srvid, srvinfo) => srvmap[srvid := srvinfo]
    case SetGameIDAck(_, _, services) => (map srvid | srvid in srvmap && home(srvid) != dispid :: srvmap[srvid]) + services
    case _ => srvmap
  }

  function WatchedAll(srvmap: Services, s: seq<Packet>, home: Home, dispid: nat): Services
  {
    if |s| == 0 then srvmap else Watched(WatchedAll(srvmap, s[..|s| - 1], home, dispid), s[|s| - 1], home, dispid)
  }

  /** Registrations go to the dispatcher that keeps the service. */
  predicate AtHome(s: seq<Packet>, home: Home, dispid: nat)
  {
    forall i | 0 <= i < |s| ::
      (s[i].SrvdisRegister? ==> home(s[i].srvid) == dispid) &&
      (s[i].SetGameIDAck? ==> forall srvid | srvid in s[i].services :: home(srvid) == dispid)
  }

  /** The packets from the last answer to SET_GAME_ID on. */
  function SinceAck(s: seq<Packet>): (r: seq<Packet>)
    ensures |r| <= |s| && r == s[|s| - |r|..]
  {
    if |s| == 0 then []
    else if s[|s| - 1].SetGameIDAck? then [s[|s| - 1]]
    else if Synced(s[..|s| - 1]).Some? then SinceAck(s[..|s| - 1]) + [s[|s| - 1]]
    else []
  }

  /**
    A game that has handled the answer to its last SET_GAME_ID and everything sent after it agrees
    with what the dispatcher's packets amount to, whatever its replica held before and whatever was
    lost with earlier connections.
  */
  lemma {:induction false} ReplicaAgrees(s: seq<Packet>, home: Home, dispid: nat, m0: Services)
    requires AtHome(s, home, dispid) && Synced(s).Some?
    ensures SinceAck(s) != [] && SinceAck(s)[0].SetGameIDAck?
    ensures Share(WatchedAll(m0, SinceAck(s), home, dispid), home, dispid) == Synced(s).value
    decreases |s|
  {
    var n := |s| - 1;
    if s[n].SetGameIDAck? {
      assert [s[n]][..0] == [];
      assert WatchedAll(m0, [s[n]], home, dispid) == Watched(m0, s[n], home, dispid);
    } else {
      ReplicaAgrees(s[..n], home, dispid, m0);
      var t := SinceAck(s[..n]);
      assert (t + [s[n]])[..|t|] == t;
      ShareStep(WatchedAll(m0, t, home, dispid), s[n], home, dispid);
    }
  }

  lemma ShareStep(srvmap: Services, pkt: Packet, home: Home, dispid: nat)
    requires !pkt.SetGameIDAck? && (pkt.SrvdisRegister? ==> home(pkt.srvid) == dispid)
    ensures Share(Watched(srvmap, pkt, home, dispid), home, dispid) == Told(Share(srvmap, home, dispid), pkt)
  {
  }

  /** The shares of other dispatchers are not touched. */
  lemma OthersUntouched(srvmap: Services, pkt: Packet, home: Home, dispid: nat, other: nat)
    requires AtHome([pkt], home, dispid) && other != dispid
    ensures Share(Watched(srvmap, pkt, home, dispid), home, other) == Share(srvmap, home, other)
  {
    assert [pkt][0] == pkt;
  }

  /** All services of a registry are kept by this dispatcher. */
  ghost predicate OwnServices(m: Services, home: Home, dispid: nat)
  {
    forall srvid | srvid in m :: home(srvid) == dispid
  }

  lemma KnownAtHome(s: seq<Packet>, m: Services, home: Home, dispid: nat)
    requires Known(s, m) && OwnServices(m, home, dispid)
    ensures AtHome(s, home, dispid)
  {
  }

  /** The services that a connected game sees, in every state that the dispatcher's handlers keep. */
  lemma GamesAgree(games: map<GameId, Gdi>, sent: map<GameId, seq<Packet>>, m: Services, g: GameId,
                   home: Home, dispid: nat, m0: Services)
    requires Steady(games, sent, m, {}) && OwnServices(m, home, dispid) && g in games && games[g].connected
    ensures Share(WatchedAll(m0, SinceAck(sent[g]), home, dispid), home, dispid) == m
  {
    assert SteadyAt(games[g], sent[g], m, false);
    KnownAtHome(sent[g], m, home, dispid);
    ReplicaAgrees(sent[g], home, dispid, m0);
  }

  // ---------- Over runs ----------

  /** The position of the last answer to SET_GAME_ID; the length when there is none. */
  function LastAck(s: seq<Packet>): (n: nat)
    ensures n <= |s| && (n < |s| ==> s[n].SetGameIDAck?) && forall i | n < i < |s| :: !s[i].SetGameIDAck?
    ensures n == |s| ==> forall i | 0 <= i < |s| :: !s[i].SetGameIDAck?
  {
    if |s| == 0 then 0
    else if s[|s| - 1].SetGameIDAck? then |s| - 1
    else if LastAck(s[..|s| - 1]) < |s| - 1 then LastAck(s[..|s| - 1])
    else |s|
  }

  /**
    A game that is done with the first `k` packets sent to it: once the last answer to SET_GAME_ID
    is among them, its share is what these packets amount to.
  */
  ghost predicate Caught(srvmap: Services, s: seq<Packet>, k: nat, home: Home, dispid: nat)
  {
    k <= |s| && (LastAck(s) < k ==> Synced(s[..k]) == Some(Share(srvmap, home, dispid)))
  }

  lemma CaughtGrows(srvmap: Services, s: seq<Packet>, s': seq<Packet>, k: nat, home: Home, dispid: nat)
    requires Caught(srvmap, s, k, home, dispid) && s <= s'
    ensures Caught(srvmap, s', k, home, dispid)
  {
    assert s'[..k] == s[..k];
    if LastAck(s') < k {
      var n := LastAck(s');
      assert s[n] == s'[n] && LastAck(s) == n;
    }
  }

  /** The game handles one more packet. */
  lemma CaughtNext(srvmap: Services, s: seq<Packet>, k: nat, home: Home, dispid: nat)
    requires Caught(srvmap, s, k, home, dispid) && k < |s| && AtHome(s, home, dispid)
    ensures Caught(Watched(srvmap, s[k], home, dispid), s, k + 1, home, dispid)
  {
    assert s[..k + 1][..k] == s[..k];
    if LastAck(s) < k {
      assert Synced(s[..k + 1]) == Some(Told(Synced(s[..k]).value, s[k]));
      ShareStep(srvmap, s[k], home, dispid);
    } else if LastAck(s) == k {
      assert Share(Watched(srvmap, s[k], home, dispid), home, dispid) == s[k].services;
    }
  }

  lemma SyncedHasAck(s: seq<Packet>)
    requires Synced(s).Some?
    ensures LastAck(s) < |s|
  {
    if !s[|s| - 1].SetGameIDAck? {
      SyncedHasAck(s[..|s| - 1]);
    }
  }

  /** What happens at a dispatcher and its games; nothing freezes. */
  datatype Event =
    | Connect(g: GameId, eids: seq<EntityId>, replica: Services)
    | Disconnect(g: GameId)
    | Register(srvid: Str, srvinfo: Str, force: bool)
    | FromGame(src: GameId, msg: Msg)
    | Handle(g: GameId)
    | Lose(g: GameId)

  /** A dispatcher and the replicas of its games, each with the number of packets it is done with. */
  class Cluster {
    const home: Home
    const dispid: nat
    const d: DispatcherService
    var srvmaps: map<GameId, Services>
    var done: map<GameId, nat>

    ghost predicate Valid()
      reads this, d
    {
      && d.Valid() && d.Replicated() && OwnServices(d.srvdisRegisterMap, home, dispid)
      && (forall g | g in d.games :: g in srvmaps && g in done && g in d.sent
            && Caught(srvmaps[g], d.sent[g], done[g], home, dispid))
    }

    /** A connected game that is done with everything sent to it has the dispatcher's services. */
    ghost predicate Agrees()
      reads this, d
    {
      forall g | g in d.games && d.games[g].connected && g in done && g in srvmaps && g in d.sent && done[g] == |d.sent[g]| ::
        Share(srvmaps[g], home, dispid) == d.srvdisRegisterMap
    }

    lemma ValidAgrees()
      requires Valid()
      ensures Agrees()
    {
      forall g | g in d.games && d.games[g].connected && done[g] == |d.sent[g]|
        ensures Share(srvmaps[g], home, dispid) == d.srvdisRegisterMap
      {
        assert SteadyAt(d.games[g], d.sent[g], d.srvdisRegisterMap, false);
        SyncedHasAck(d.sent[g]);
        assert d.sent[g][..done[g]] == d.sent[g];
      }
    }

    constructor (home: Home, dispid: nat)
      ensures Valid() && fresh(d) && this.home == home && this.dispid == dispid && d.games == map[] && d.srvdisRegisterMap == map[]
    {
      this.home, this.dispid := home, dispid;
      d := new DispatcherService();
      srvmaps, done := map[], map[];
    }

    /** After the dispatcher did something; a game it did not know has a replica of its own, at the start. */
    ghost predicate Ready(sent0: map<GameId, seq<Packet>>)
      reads this, d
    {
      && d.Valid() && d.Replicated() && OwnServices(d.srvdisRegisterMap, home, dispid) && Grows(sent0, d.sent)
      && (forall g | g in sent0 :: g in srvmaps && g in done && Caught(srvmaps[g], sent0[g], done[g], home, dispid))
      && (forall g | g in d.games :: g in srvmaps && g in done && (g !in sent0 ==> done[g] == 0))
    }

    lemma ReadyValid(sent0: map<GameId, seq<Packet>>)
      requires Ready(sent0)
      ensures Valid()
    {
      forall g | g in d.games
        ensures Caught(srvmaps[g], d.sent[g], done[g], home, dispid)
      {
        if g in sent0 {
          CaughtGrows(srvmaps[g], sent0[g], d.sent[g], done[g], home, dispid);
        }
      }
    }

    /**
      A game, known or new, connects; a new one comes with whatever replica it has already. The
      last packet sent to it is the answer.
    */
    method Connect(g: GameId, eids: seq<EntityId>, replica: Services, now: Instant)
      requires Valid() && g != 0
      modifies this`srvmaps, this`done, d
      ensures Valid() && Online(d.games) == Online(old(d.games)) + {g} && d.srvdisRegisterMap == old(d.srvdisRegisterMap)
      ensures g in d.sent && d.sent[g] != []
      ensures
        var ack := d.sent[g][|d.sent[g]| - 1];
        ack.SetGameIDAck? && ack.services == d.srvdisRegisterMap && ack.online == Online(d.games)
    {
      hide Caught, OwnServices, Steady, Grows, Online, WaitingFor, AsPackets, Alone;
      ghost var sent0 := d.sent;
      if g !in d.games {
        done, srvmaps := done[g := 0], srvmaps[g := replica];
      }
      var rejected := d.HandleSetGameID(g, eids, now);
      ReadyValid(sent0);
    }

    method Disconnect(g: GameId, now: Instant)
      requires Valid() && g in d.games && d.games[g].connected
      modifies d
      ensures Valid() && Online(d.games) == Online(old(d.games)) - {g} && d.srvdisRegisterMap == old(d.srvdisRegisterMap)
    {
      hide Caught, OwnServices, Steady, Grows, Keeps;
      ghost var games0, sent0 := d.games[g := d.games[g].(connected := false)], d.sent;
      DropSteady(d.games, sent0, d.srvdisRegisterMap, {}, g);
      d.HandleGameDisconnected(g, now);
      KeepsSteady(games0, sent0, d.games, d.sent, d.srvdisRegisterMap, {});
      ReadyValid(sent0);
    }

    /** A registration of a service of this dispatcher; those of other services go elsewhere. */
    method Register(srvid: Str, srvinfo: Str, force: bool, now: Instant)
      requires Valid() && home(srvid) == dispid
      modifies d
      ensures Valid() && Online(d.games) == Online(old(d.games))
      ensures d.srvdisRegisterMap == Registered(old(d.srvdisRegisterMap), srvid, srvinfo, force)
    {
      hide Caught, Steady, Grows;
      ghost var sent0 := d.sent;
      d.HandleSrvdisRegister(srvid, srvinfo, force, now);
      ReadyValid(sent0);
    }

    /** Any packet about an entity; calls come from gates as well. */
    method FromGame(src: GameId, msg: Msg, now: Instant)
      requires Valid() && (msg.Call? || src in d.games)
      modifies d
      ensures Valid() && Online(d.games) == Online(old(d.games)) && d.srvdisRegisterMap == old(d.srvdisRegisterMap)
    {
      hide Caught, OwnServices, Steady, Grows, Keeps, Online;
      ghost var games0, sent0 := d.games, d.sent;
      match msg {
        case Call(_, _) => d.HandleCallEntityMethod(msg, now);
        case QuerySpace(_, _, _) => d.HandleQuerySpaceGameIDForMigrate(src, msg);
        case MigrateRequest(_, _, _) => d.HandleMigrateRequest(src, msg, now);
        case CancelMigrate(_) => d.HandleCancelMigrate(msg, now);
        case RealMigrate(_, _, _) => d.HandleRealMigrate(msg, now);
        case NotifyCreate(_) => d.HandleNotifyCreateEntity(src, msg, now);
      }
      KeepsSteady(games0, sent0, d.games, d.sent, d.srvdisRegisterMap, {});
      ReadyValid(sent0);
    }

    /** Everything sent to a game is about services that this dispatcher keeps. */
    lemma AllAtHome(g: GameId)
      requires d.Replicated() && OwnServices(d.srvdisRegisterMap, home, dispid) && g in d.games
      ensures g in d.sent && AtHome(d.sent[g], home, dispid)
    {
      assert SteadyAt(d.games[g], d.sent[g], d.srvdisRegisterMap, false);
      KnownAtHome(d.sent[g], d.srvdisRegisterMap, home, dispid);
    }

    /** A game handles the next packet sent to it. */
    method HandleNext(g: GameId)
      requires Valid() && g in d.games && done[g] < |d.sent[g]|
      modifies this`srvmaps, this`done
      ensures Valid() && done == old(done)[g := old(done)[g] + 1]
      ensures srvmaps == old(srvmaps)[g := Watched(old(srvmaps)[g], d.sent[g][old(done)[g]], home, dispid)]
    {
      hide Caught, OwnServices, Steady, Watched;
      var pkt := d.sent[g][done[g]];
      AllAtHome(g);
      CaughtNext(srvmaps[g], d.sent[g], done[g], home, dispid);
      srvmaps := srvmaps[g := Watched(srvmaps[g], pkt, home, dispid)];
      done := done[g := done[g] + 1];
    }

    /** A packet is lost with an earlier connection: another answer to SET_GAME_ID was sent since. */
    method LoseNext(g: GameId)
      requires Valid() && g in d.games && done[g] < LastAck(d.sent[g]) < |d.sent[g]|
      modifies this`done
      ensures Valid() && done == old(done)[g := old(done)[g] + 1]
    {
      hide OwnServices, Steady;
      done := done[g := done[g] + 1];
    }

    /** A game handles everything that was sent to it. */
    method CatchUp(g: GameId)
      requires Valid() && g in d.games
      modifies this`srvmaps, this`done
      ensures Valid() && done == old(done)[g := |d.sent[g]|] && g in srvmaps
      ensures d.games[g].connected ==> Share(srvmaps[g], home, dispid) == d.srvdisRegisterMap
      ensures forall h | h != g && h in old(srvmaps) :: h in srvmaps && srvmaps[h] == old(srvmaps)[h]
    {
      assert done[g] <= |d.sent[g]|;
      hide Caught, OwnServices, Steady, Watched;
      while done[g] < |d.sent[g]|
        invariant Valid() && g in d.sent && g in done && done[g] <= |d.sent[g]|
        invariant done == old(done)[g := done[g]]
        invariant forall h | h != g && h in old(srvmaps) :: h in srvmaps && srvmaps[h] == old(srvmaps)[h]
        decreases |d.sent[g]| - done[g]
      {
        HandleNext(g);
      }
      ValidAgrees();
    }
  }

  // ---------- What the events ask for ----------

  /** The games that have a connection after a run. */
  function OnlineAfter(events: seq<(Event, Instant)>): set<GameId>
  {
    if |events| == 0 then {} else
    var before := OnlineAfter(events[..|events| - 1]);
    match events[|events| - 1].0
    case Connect(g, _, _) => if g != 0 then before + {g} else before
    case Disconnect(g) => before - {g}
    case _ => before
  }

  /** The registrations of the services that a dispatcher keeps, in the order they arrive. */
  function Registrations(home: Home, dispid: nat, events: seq<(Event, Instant)>): seq<Registration>
  {
    if |events| == 0 then [] else
    var before := Registrations(home, dispid, events[..|events| - 1]);
    match events[|events| - 1].0
    case Register(srvid, srvinfo, force) =>
      if home(srvid) == dispid then before + [Registration(srvid, srvinfo, force)] else before
    case _ => before
  }

  function Asked(home: Home, dispid: nat, events: seq<(Event, Instant)>): Services
  {
    AllRegistered(map[], Registrations(home, dispid, events))
  }

  lemma {:induction false} OneMoreRegistered(m: Services, regs: seq<Registration>, r: Registration)
    ensures AllRegistered(m, regs + [r]) == Registered(AllRegistered(m, regs), r.srvid, r.srvinfo, r.force)
    decreases |regs|
  {
    if |regs| > 0 {
      OneMoreRegistered(Registered(m, regs[0].srvid, regs[0].srvinfo, regs[0].force), regs[1..], r);
      assert (regs + [r])[1..] == regs[1..] + [r];
    } else {
      assert (regs + [r])[1..] == [];
    }
  }

  lemma AskedMore(home: Home, dispid: nat, events: seq<(Event, Instant)>, i: nat)
    requires i < |events|
    ensures
      var before, after := Asked(home, dispid, events[..i]), Asked(home, dispid, events[..i + 1]);
      match events[i].0
      case Register(srvid, srvinfo, force) =>
        after == if home(srvid) == dispid then Registered(before, srvid, srvinfo, force) else before
      case _ => after == before
    ensures
      var before, after := OnlineAfter(events[..i]), OnlineAfter(events[..i + 1]);
      match events[i].0
      case Connect(g, _, _) => after == if g != 0 then before + {g} else before
      case Disconnect(g) => after == before - {g}
      case _ => after == before
  {
    assert events[..i + 1][..i] == events[..i];
    if events[i].0.Register? {
      var Register(srvid, srvinfo, force) := events[i].0;
      OneMoreRegistered(map[], Registrations(home, dispid, events[..i]), Registration(srvid, srvinfo, force));
    }
  }

  // ---------- Runs ----------

  /** One event; what cannot happen in a state, like a game handling packets that were not sent, does not. */
  method Happen(c: Cluster, event: Event, now: Instant)
    requires c.Valid()
    modifies c, c.d
    ensures c.Valid()
    ensures
      match event
      case Register(srvid, srvinfo, force) =>
        c.d.srvdisRegisterMap ==
          if c.home(srvid) == c.dispid then Registered(old(c.d.srvdisRegisterMap), srvid, srvinfo, force)
          else old(c.d.srvdisRegisterMap)
      case _ => c.d.srvdisRegisterMap == old(c.d.srvdisRegisterMap)
    ensures
      var before, after := Online(old(c.d.games)), Online(c.d.games);
      match event
      case Connect(g, _, _) => after == if g != 0 then before + {g} else before
      case Disconnect(g) => after == before - {g}
      case _ => after == before
  {
    hide Caught, OwnServices, Steady;
    match event {
      case Connect(g, eids, replica) =>
        if g != 0 { c.Connect(g, eids, replica, now); }
      case Disconnect(g) =>
        if g in c.d.games && c.d.games[g].connected { c.Disconnect(g, now); }
      case Register(srvid, srvinfo, force) =>
        if c.home(srvid) == c.dispid { c.Register(srvid, srvinfo, force, now); }
      case FromGame(src, msg) =>
        if msg.Call? || src in c.d.games { c.FromGame(src, msg, now); }
      case Handle(g) =>
        if g in c.d.games && c.done[g] < |c.d.sent[g]| { c.HandleNext(g); }
      case Lose(g) =>
        if g in c.d.games && c.done[g] < LastAck(c.d.sent[g]) < |c.d.sent[g]| { c.LoseNext(g); }
    }
  }

  /**
    Over any run of connections, disconnections, registrations and entity packets, with games that
    handle what is sent to them at their own pace and lose what earlier connections had: the
    registry is what the registrations ask for, the games connected are those that should be, and
    each of them that is up to date has the services of the dispatcher, and no others from it.
  */
  method Run(home: Home, dispid: nat, events: seq<(Event, Instant)>) returns (c: Cluster)
    ensures c.Valid() && c.Agrees() && c.home == home && c.dispid == dispid && fresh(c) && fresh(c.d)
    ensures c.d.srvdisRegisterMap == Asked(home, dispid, events) && Online(c.d.games) == OnlineAfter(events)
  {
    hide Caught, OwnServices, Steady, Online, Registered;
    c := new Cluster(home, dispid);
    NobodyOnline(c.d.games);
    assert Asked(home, dispid, []) == map[] && events[..0] == [];
    for i := 0 to |events|
      invariant fresh(c) && fresh(c.d) && c.Valid() && c.home == home && c.dispid == dispid
      invariant c.d.srvdisRegisterMap == Asked(home, dispid, events[..i]) && Online(c.d.games) == OnlineAfter(events[..i])
    {
      AskedMore(home, dispid, events, i);
      Happen(c, events[i].0, events[i].1);
    }
    assert events[..|events|] == events;
    c.ValidAgrees();
  }

  lemma NobodyOnline(games: map<GameId, Gdi>)
    ensures games == map[] ==> Online(games) == {}
  {
  }

  /** When the games have caught up after a run, all that are connected agree on what was asked for. */
  method RunAndCatchUp(home: Home, dispid: nat, events: seq<(Event, Instant)>) returns (c: Cluster)
    ensures c.Valid() && Online(c.d.games) == OnlineAfter(events)
    ensures forall g | g in OnlineAfter(events) ::
              g in c.srvmaps && Share(c.srvmaps[g], home, dispid) == Asked(home, dispid, events)
  {
    c := Run(home, dispid, events);
    hide Caught, OwnServices, Steady, OnlineAfter, Asked;
    var left := OnlineAfter(events);
    while left != {}
      invariant c.Valid() && left <= OnlineAfter(events) && fresh(c) && c.home == home && c.dispid == dispid
      invariant Online(c.d.games) == OnlineAfter(events) && c.d.srvdisRegisterMap == Asked(home, dispid, events)
      invariant forall g | g in OnlineAfter(events) && g !in left ::
                  g in c.srvmaps && Share(c.srvmaps[g], home, dispid) == Asked(home, dispid, events)
      decreases left
    {
      var g :| g in left;
      left := left - {g};
      c.CatchUp(g);
    }
  }

  /** So the first game that registered a service, with nobody forcing another one, is known everywhere. */
  method FirstIsKnown(home: Home, dispid: nat, events: seq<(Event, Instant)>, srvid: Str, k: nat) returns (c: Cluster)
    requires home(srvid) == dispid && k < |Registrations(home, dispid, events)|
    requires
      var regs := Registrations(home, dispid, events);
      && regs[k].srvid == srvid && regs[k].srvinfo != []
      && forall i | 0 <= i < |regs| && regs[i].srvid == srvid :: !regs[i].force && (i < k ==> regs[i].srvinfo == [])
    ensures forall g | g in OnlineAfter(events) ::
              g in c.srvmaps && srvid in c.srvmaps[g] && c.srvmaps[g][srvid] == Registrations(home, dispid, events)[k].srvinfo
  {
    FirstWins(map[], Registrations(home, dispid, events), srvid, k);
    c := RunAndCatchUp(home, dispid, events);
    hide OnlineAfter, Registrations;
    forall g | g in OnlineAfter(events)
      ensures g in c.srvmaps && srvid in c.srvmaps[g] && c.srvmaps[g][srvid] == Registrations(home, dispid, events)[k].srvinfo
    {
      assert srvid in Share(c.srvmaps[g], home, dispid);
    }
  }

  class Srvdis {
    const home: Home
    var srvmap: Services

    constructor (home: Home)
      ensures this.home == home && srvmap == map[]
    {
      this.home, srvmap := home, map[];
    }

    method WatchSrvdisRegister(srvid: Str, srvinfo: Str)
      modifies this
      ensures srvmap == old(srvmap)[srvid := srvinfo]
    {
      srvmap := srvmap[srvid := srvinfo];
    }

    method ClearByDispatcher(dispid: nat)
      modifies this
      ensures Share(srvmap, home, dispid) == map[]
      ensures forall other | other != dispid :: Share(srvmap, home, other) == Share(old(srvmap), home, other)
      ensures srvmap == map srvid | srvid in old(srvmap) && home(srvid) != dispid :: old(srvmap)[srvid]
    {
      var removeSrvIDs: set<Str> := {};
      var left := srvmap.Keys;
      while left != {}
        invariant left <= srvmap.Keys
        invariant forall srvid :: srvid in removeSrvIDs <==> srvid in srvmap.Keys - left && home(srvid) == dispid
        decreases left
      {
        var srvid :| srvid in left;
        left := left - {srvid};
        if home(srvid) == dispid {
          removeSrvIDs := removeSrvIDs + {srvid};
        }
      }
      srvmap := srvmap - removeSrvIDs;
    }

    /** The part of handleSetGameIDAck about services: the dispatcher's share is replaced. */
    method HandleSetGameIDAck(dispid: nat, ack: Packet)
      requires ack.SetGameIDAck?
      modifies this
      ensures srvmap == Watched(old(srvmap), ack, home, dispid)
    {
      ClearByDispatcher(dispid);
      ghost var cleared := srvmap;
      var left := ack.services.Keys;
      while left != {}
        invariant left <= ack.services.Keys
        invariant srvmap == cleared + map srvid | srvid in ack.services && srvid !in left :: ack.services[srvid]
        decreases left
      {
        var srvid :| srvid in left;
        left := left - {srvid};
        WatchSrvdisRegister(srvid, ack.services[srvid]);
      }
      assert (map srvid | srvid in ack.services && srvid !in left :: ack.services[srvid]) == ack.services;
    }

    /** The packets of one dispatcher, one after another. */
    method HandlePackets(dispid: nat, s: seq<Packet>)
      modifies this
      ensures srvmap == WatchedAll(old(srvmap), s, home, dispid)
    {
      for i := 0 to |s|
        invariant srvmap == WatchedAll(old(srvmap), s[..i], home, dispid)
      {
        assert s[..i + 1][..i] == s[..i];
        match s[i] {
          case SrvdisRegister(srvid, srvinfo) =>
            WatchSrvdisRegister(srvid, srvinfo);
          case SetGameIDAck(_, _, _) =>
            HandleSetGameIDAck(dispid, s[i]);
          case _ =>
        }
      }
      assert s[..|s|] == s;
    }
  }
}
