/**
  The dispatcher's tables and handlers as DispatcherService.go updates them, games that freeze,
  disconnect and go down included.
*/
module DispatcherState {
  import opened Bytes
  import opened Migration
  import Q = EntityQueue

  const GAME_PENDING_PACKET_QUEUE_MAX_LEN := 1000000
  const DISPATCHER_FREEZE_GAME_TIMEOUT: Time := 10_000_000_000

  /** What services registered: the information kept for each service identifier. */
  type Services = map<Str, Str>

  /**
    A packet to a game: about an entity, positions of entities, about another game, about services,
    or the answer to its SET_GAME_ID.
  */
  datatype Packet =
    | ToEntity(msg: Msg)
    | SyncInfos
    | GameDown(gameid: GameId)
    | GameConnected(gameid: GameId)
    | StartFreezeAck
    | SrvdisRegister(srvid: Str, srvinfo: Str)
    | SetGameIDAck(online: set<GameId>, rejected: seq<EntityId>, services: Services)

  /** gameDispatchInfo: `connected` says that there is a client proxy. */
  datatype Gdi = Gdi(connected: bool, isBlocked: bool, blockUntil: Time, queue: seq<Packet>)

  predicate Expired(gdi: Gdi, now: Time)
  {
    gdi.isBlocked && now > gdi.blockUntil
  }

  // ---------- One game ----------

  /** checkBlocked: a freeze that ran out is over. */
  function Checked(gdi: Gdi, now: Time): Gdi
  {
    if Expired(gdi, now) then gdi.(isBlocked := false) else gdi
  }

  /** A packet is sent if that is possible at once, and queued or dropped otherwise. */
  function Placed(gdi: Gdi, sent: seq<Packet>, pkt: Packet): (Gdi, seq<Packet>)
  {
    if !gdi.isBlocked && gdi.connected then (gdi, sent + [pkt])
    else if |gdi.queue| < GAME_PENDING_PACKET_QUEUE_MAX_LEN then (gdi.(queue := gdi.queue + [pkt]), sent)
    else (gdi, sent)
  }

  /** Where gameDispatchInfo.dispatchPacket puts a packet, unless the game turns out to be down. */
  function Dispatched(gdi: Gdi, sent: seq<Packet>, pkt: Packet, now: Time): (Gdi, seq<Packet>)
  {
    Placed(Checked(gdi, now), sent, pkt)
  }

  /** A packet is sent at once: the game is connected, and no freeze is going on. */
  predicate Direct(gdi: Gdi, now: Time)
  {
    gdi.connected && (!gdi.isBlocked || Expired(gdi, now))
  }

  /**
    A packet comes after all packets for its game that were sent or queued before, except when it
    is sent at once past a queue left by a freeze, or dropped by a full queue.
  */
  lemma OrderKeptExactly(gdi: Gdi, sent: seq<Packet>, pkt: Packet, now: Time)
    ensures
      var (gdi', sent') := Dispatched(gdi, sent, pkt, now);
      sent' + gdi'.queue == sent + gdi.queue + [pkt] <==>
        if Direct(gdi, now) then forall i | 0 <= i < |gdi.queue| :: gdi.queue[i] == pkt
        else |gdi.queue| < GAME_PENDING_PACKET_QUEUE_MAX_LEN
  {
    var q := gdi.queue;
    if Direct(gdi, now) {
      if sent + [pkt] + q == sent + q + [pkt] {
        Shifted(sent, q, pkt, |q|);
      }
      if forall i | 0 <= i < |q| :: q[i] == pkt {
        assert [pkt] + q == q + [pkt];
        assert sent + [pkt] + q == sent + ([pkt] + q) == sent + q + [pkt];
      }
    } else {
      assert sent + (q + [pkt]) == sent + q + [pkt];
      assert |sent + q| != |sent + q + [pkt]|;
    }
  }

  /** Only a queue of nothing but `pkt` can be overtaken by `pkt` without a trace. */
  lemma {:induction false} Shifted(sent: seq<Packet>, q: seq<Packet>, pkt: Packet, n: nat)
    requires sent + [pkt] + q == sent + q + [pkt] && n <= |q|
    ensures forall i | 0 <= i < n :: q[i] == pkt
  {
    if n > 0 {
      Shifted(sent, q, pkt, n - 1);
      var k := |sent| + n - 1;
      assert (sent + q + [pkt])[k] == q[n - 1];
      assert (sent + [pkt] + q)[k] == if n == 1 then pkt else q[n - 2];
    }
  }

  /** Packets dispatched to one game, one after another, each at its time. */
  function DispatchedAll(gdi: Gdi, sent: seq<Packet>, pkts: seq<(Packet, Time)>): (Gdi, seq<Packet>)
  {
    if |pkts| == 0 then (gdi, sent) else
    var n := |pkts| - 1;
    var (gdi', sent') := DispatchedAll(gdi, sent, pkts[..n]);
    Dispatched(gdi', sent', pkts[n].0, pkts[n].1)
  }

  /** The first packets for which the queue has room. */
  function Fitting(gdi: Gdi, pkts: seq<(Packet, Time)>): seq<Packet>
  {
    if |gdi.queue| >= GAME_PENDING_PACKET_QUEUE_MAX_LEN then [] else
    var room := GAME_PENDING_PACKET_QUEUE_MAX_LEN - |gdi.queue|;
    seq(if room < |pkts| then room else |pkts|, i requires 0 <= i < |pkts| => pkts[i].0)
  }

  /** While a freeze lasts nothing is sent, and everything the queue has room for waits in order. */
  lemma {:induction false} FrozenQueues(gdi: Gdi, sent: seq<Packet>, pkts: seq<(Packet, Time)>)
    requires gdi.isBlocked && forall i | 0 <= i < |pkts| :: pkts[i].1 <= gdi.blockUntil
    ensures DispatchedAll(gdi, sent, pkts) == (gdi.(queue := gdi.queue + Fitting(gdi, pkts)), sent)
    ensures |gdi.queue| + |pkts| <= 1000000 ==> Fitting(gdi, pkts) == seq(|pkts|, i requires 0 <= i < |pkts| => pkts[i].0)
    decreases |pkts|
  {
    if |pkts| == 0 {
      assert gdi.queue + [] == gdi.queue;
    } else {
      var n := |pkts| - 1;
      FrozenQueues(gdi, sent, pkts[..n]);
      var before, after := Fitting(gdi, pkts[..n]), Fitting(gdi, pkts);
      if |gdi.queue| + n < GAME_PENDING_PACKET_QUEUE_MAX_LEN {
        assert after == before + [pkts[n].0];
        assert gdi.queue + after == gdi.queue + before + [pkts[n].0];
      } else {
        assert after == before;
      }
    }
  }

  function AsPackets(msgs: seq<Msg>): seq<Packet>
  {
    seq(|msgs|, i requires 0 <= i < |msgs| => ToEntity(msgs[i]))
  }

  /** For how many of `n` packets the queue has room. */
  function Room(gdi: Gdi, n: nat): (r: nat)
    ensures r <= n
  {
    if |gdi.queue| >= GAME_PENDING_PACKET_QUEUE_MAX_LEN then 0
    else if GAME_PENDING_PACKET_QUEUE_MAX_LEN - |gdi.queue| < n then GAME_PENDING_PACKET_QUEUE_MAX_LEN - |gdi.queue|
    else n
  }

  /** What becomes of messages for a game: all are sent, or they wait in order as far as there is room. */
  function Passed(gdi: Gdi, sent: seq<Packet>, msgs: seq<Msg>, now: Time): (Gdi, seq<Packet>)
  {
    if |msgs| == 0 then (gdi, sent)
    else if Direct(gdi, now) then (Checked(gdi, now), sent + AsPackets(msgs))
    else (Checked(gdi, now).(queue := gdi.queue + AsPackets(msgs[..Room(gdi, |msgs|)])), sent)
  }

  lemma PassedOne(gdi: Gdi, sent: seq<Packet>, msg: Msg, now: Time)
    ensures Passed(gdi, sent, [msg], now) == Dispatched(gdi, sent, ToEntity(msg), now)
  {
    assert AsPackets([msg]) == [ToEntity(msg)];
    if Room(gdi, 1) == 1 {
      assert [msg][..1] == [msg];
    } else {
      assert AsPackets([msg][..0]) == [];
      assert gdi.queue + [] == gdi.queue;
    }
  }

  /** Messages handed on one group after the other fare as those handed on together. */
  lemma PassedMore(gdi: Gdi, sent: seq<Packet>, first: seq<Msg>, more: seq<Msg>, now: Time)
    ensures
      var (gdi', sent') := Passed(gdi, sent, first, now);
      Passed(gdi', sent', more, now) == Passed(gdi, sent, first + more, now) && gdi'.connected == gdi.connected
  {
    if |first| == 0 {
      assert first + more == more;
    } else if |more| == 0 {
      assert first + more == first;
    } else if Direct(gdi, now) {
      assert AsPackets(first + more) == AsPackets(first) + AsPackets(more);
      assert sent + AsPackets(first) + AsPackets(more) == sent + (AsPackets(first) + AsPackets(more));
    } else {
      var q := gdi.queue + AsPackets(first[..Room(gdi, |first|)]);
      var n := Room(Passed(gdi, sent, first, now).0, |more|);
      assert AsPackets((first + more)[..Room(gdi, |first + more|)]) == AsPackets(first[..Room(gdi, |first|)]) + AsPackets(more[..n]);
      assert q + AsPackets(more[..n]) == gdi.queue + (AsPackets(first[..Room(gdi, |first|)]) + AsPackets(more[..n]));
    }
  }

  // ---------- The dispatcher ----------

  /** The entity packets of a sequence, in order. */
  function Messages(q: seq<Packet>): seq<Msg>
  {
    if |q| == 0 then [] else (if q[0].ToEntity? then [q[0].msg] else []) + Messages(q[1..])
  }

  lemma {:induction false} MessagesAppend(q: seq<Packet>, msg: Msg)
    ensures Messages(q + [ToEntity(msg)]) == Messages(q) + [msg]
  {
    if |q| > 0 {
      MessagesAppend(q[1..], msg);
      assert (q + [ToEntity(msg)])[1..] == q[1..] + [ToEntity(msg)];
    }
  }

  /** The games a cascade of clean-ups can reach: frozen, run out, and not connected. */
  ghost function Doomed(games: map<GameId, Gdi>, now: Time): set<GameId>
  {
    set g | g in games && Expired(games[g], now) && !games[g].connected
  }

  ghost function BlockedGames(games: map<GameId, Gdi>): set<GameId>
  {
    set g | g in games && games[g].isBlocked
  }

  /**
    What dispatching at time `now` leaves alone: connections and deadlines, running freezes, and
    the entries of all games but those in `downed`.
  */
  ghost predicate Settled(games: map<GameId, Gdi>, edis: map<EntityId, Edi>,
                          games': map<GameId, Gdi>, edis': map<EntityId, Edi>, now: Time, downed: set<GameId>)
  {
    && games'.Keys == games.Keys
    && (forall g | g in games :: games'[g].connected == games[g].connected && games'[g].blockUntil == games[g].blockUntil
          && (games'[g].isBlocked == games[g].isBlocked || (Expired(games[g], now) && !games'[g].isBlocked)))
    && (forall e | e in edis' :: e in edis && edis'[e] == edis[e])
    && (forall e | e in edis && e !in edis' :: edis[e].gameid in downed)
  }

  lemma SettledTrans(g0: map<GameId, Gdi>, e0: map<EntityId, Edi>, g1: map<GameId, Gdi>, e1: map<EntityId, Edi>,
                     g2: map<GameId, Gdi>, e2: map<EntityId, Edi>, now: Time, d1: set<GameId>, d2: set<GameId>)
    requires Settled(g0, e0, g1, e1, now, d1) && Settled(g1, e1, g2, e2, now, d2)
    ensures Settled(g0, e0, g2, e2, now, d1 + d2)
    ensures Doomed(g1, now) <= Doomed(g0, now) && BlockedGames(g2) <= BlockedGames(g1) <= BlockedGames(g0)
  {
  }

  /** The entries of all games but one. */
  function Without(edis: map<EntityId, Edi>, g: GameId): map<EntityId, Edi>
  {
    map e | e in edis && edis[e].gameid != g :: edis[e]
  }

  lemma DownSettled(games: map<GameId, Gdi>, edis: map<EntityId, Edi>, g: GameId, now: Time)
    requires g in games
    ensures
      var games', edis' := games[g := games[g].(queue := [])], Without(edis, g);
      && Settled(games, edis, games', edis', now, Doomed(games, now) + {g})
      && BlockedGames(games') == BlockedGames(games) && Doomed(games', now) == Doomed(games, now)
  {
  }

  lemma GoneWith(g0: map<GameId, Gdi>, e0: map<EntityId, Edi>, g1: map<GameId, Gdi>, e1: map<EntityId, Edi>, g: GameId, now: Time)
    requires g in g0
    requires Settled(g0, e0, g1, e1, now, Doomed(g0, now)) || Settled(g0, e0, g1, e1, now, Doomed(g0, now) + {g})
    ensures g1.Keys == g0.Keys && g1[g].connected == g0[g].connected
    ensures forall e | e in e1 :: e in e0 && e1[e] == e0[e]
    ensures forall e | e in e0 && e !in e1 :: e0[e].gameid in Doomed(g0, now) + {g}
  {
  }

  lemma CutNotStuck(games: map<GameId, Gdi>, g: GameId)
    requires g in games && NothingStuck(games)
    ensures NothingStuck(games[g := games[g].(connected := false)])
  {
  }

  lemma SettledWider(g0: map<GameId, Gdi>, e0: map<EntityId, Edi>, g1: map<GameId, Gdi>, e1: map<EntityId, Edi>,
                     now: Time, d1: set<GameId>, d2: set<GameId>)
    requires Settled(g0, e0, g1, e1, now, d1) && d1 <= d2
    ensures Settled(g0, e0, g1, e1, now, d2)
  {
  }

  // ---------- Services ----------

  /** handleSrvdisRegister: the information is taken when forced or when there is none yet. */
  predicate Taken(m: Services, srvid: Str, force: bool)
  {
    force || srvid !in m || m[srvid] == []
  }

  function Registered(m: Services, srvid: Str, srvinfo: Str, force: bool): Services
  {
    if Taken(m, srvid, force) then m[srvid := srvinfo] else m
  }

  datatype Registration = Registration(srvid: Str, srvinfo: Str, force: bool)

  function AllRegistered(m: Services, regs: seq<Registration>): Services
    decreases |regs|
  {
    if |regs| == 0 then m
    else AllRegistered(Registered(m, regs[0].srvid, regs[0].srvinfo, regs[0].force), regs[1..])
  }

  /** Among unforced registrations of a service, the first one that says anything wins for good. */
  lemma {:induction false} FirstWins(m: Services, regs: seq<Registration>, srvid: Str, k: nat)
    requires k < |regs| && regs[k].srvid == srvid && regs[k].srvinfo != []
    requires forall i | 0 <= i < |regs| && regs[i].srvid == srvid :: !regs[i].force && (i < k ==> regs[i].srvinfo == [])
    ensures
      var m' := AllRegistered(m, regs);
      srvid in m' && m'[srvid] == if srvid in m && m[srvid] != [] then m[srvid] else regs[k].srvinfo
    decreases |regs|
  {
    var m1 := Registered(m, regs[0].srvid, regs[0].srvinfo, regs[0].force);
    if k > 0 {
      FirstWins(m1, regs[1..], srvid, k - 1);
    } else {
      WinnerStays(m1, regs[1..], srvid);
    }
  }

  /** A forced registration replaces whatever there is, and stays until the next one that is taken. */
  lemma {:induction false} ForcedReplaces(m: Services, regs: seq<Registration>, srvid: Str, k: nat)
    requires k < |regs| && regs[k].srvid == srvid && regs[k].force
    requires forall i | k < i < |regs| && regs[i].srvid == srvid :: !regs[i].force && regs[k].srvinfo != []
    ensures srvid in AllRegistered(m, regs) && AllRegistered(m, regs)[srvid] == regs[k].srvinfo
    decreases |regs|
  {
    var m1 := Registered(m, regs[0].srvid, regs[0].srvinfo, regs[0].force);
    if k > 0 {
      ForcedReplaces(m1, regs[1..], srvid, k - 1);
    } else if regs[0].srvinfo != [] {
      WinnerStays(m1, regs[1..], srvid);
    } else {
      Unregistered(m1, regs[1..], srvid);
    }
  }

  /** Registrations of other services do not matter. */
  lemma {:induction false} Unregistered(m: Services, regs: seq<Registration>, srvid: Str)
    requires forall i | 0 <= i < |regs| :: regs[i].srvid != srvid
    ensures srvid in m <==> srvid in AllRegistered(m, regs)
    ensures srvid in m ==> AllRegistered(m, regs)[srvid] == m[srvid]
    decreases |regs|
  {
    if |regs| > 0 {
      Unregistered(Registered(m, regs[0].srvid, regs[0].srvinfo, regs[0].force), regs[1..], srvid);
    }
  }

  lemma {:induction false} WinnerStays(m: Services, regs: seq<Registration>, srvid: Str)
    requires srvid in m && m[srvid] != []
    requires forall i | 0 <= i < |regs| && regs[i].srvid == srvid :: !regs[i].force
    ensures srvid in AllRegistered(m, regs) && AllRegistered(m, regs)[srvid] == m[srvid]
    decreases |regs|
  {
    if |regs| > 0 {
      WinnerStays(Registered(m, regs[0].srvid, regs[0].srvinfo, regs[0].force), regs[1..], srvid);
    }
  }

  /** What the last answer to SET_GAME_ID and the registrations after it say about services. */
  function Synced(s: seq<Packet>): Option<Services>
  {
    if |s| == 0 then None else
    var n := |s| - 1;
    if s[n].SetGameIDAck? then Some(s[n].services)
    else if s[n].SrvdisRegister? && Synced(s[..n]).Some? then Some(Synced(s[..n]).value[s[n].srvid := s[n].srvinfo])
    else Synced(s[..n])
  }

  /** The services after a packet that is not such an answer. */
  function Told(m: Services, pkt: Packet): Services
  {
    if pkt.SrvdisRegister? then m[pkt.srvid := pkt.srvinfo] else m
  }

  /** All services in packets are in the registry `m`. */
  ghost predicate Known(s: seq<Packet>, m: Services)
  {
    forall i | 0 <= i < |s| ::
      (s[i].SrvdisRegister? ==> s[i].srvid in m) && (s[i].SetGameIDAck? ==> s[i].services.Keys <= m.Keys)
  }

  /** Nothing that was sent is taken back. */
  ghost predicate Grows(s0: map<GameId, seq<Packet>>, s1: map<GameId, seq<Packet>>)
  {
    forall g | g in s0 :: g in s1 && s0[g] <= s1[g]
  }

  /** A game that is not frozen, and up to date when it is connected and not in the middle of connecting. */
  ghost predicate SteadyAt(gdi: Gdi, s: seq<Packet>, m: Services, out: bool)
  {
    !gdi.isBlocked && (gdi.connected && !out ==> Synced(s) == Some(m)) && Known(s, m) && Known(gdi.queue, m)
  }

  /** No game is frozen, and what was sent to each connected game but those in `out` amounts to `m`. */
  ghost predicate Steady(games: map<GameId, Gdi>, sent: map<GameId, seq<Packet>>, m: Services, out: set<GameId>)
  {
    sent.Keys == games.Keys && forall g | g in games :: SteadyAt(games[g], sent[g], m, g in out)
  }

  /** The games that have a connection. */
  function Online(games: map<GameId, Gdi>): set<GameId>
  {
    set g | g in games && games[g].connected
  }

  ghost predicate Keeps(g0: map<GameId, Gdi>, s0: map<GameId, seq<Packet>>, g1: map<GameId, Gdi>, s1: map<GameId, seq<Packet>>)
  {
    forall m, out | Steady(g0, s0, m, out) :: Kept(g0, s0, g1, s1, m, out)
  }

  /** Still up to date, with the same connections, and nothing sent was taken back. */
  ghost predicate Kept(g0: map<GameId, Gdi>, s0: map<GameId, seq<Packet>>, g1: map<GameId, Gdi>, s1: map<GameId, seq<Packet>>,
                       m: Services, out: set<GameId>)
  {
    Steady(g1, s1, m, out) && Grows(s0, s1) && s1.Keys == s0.Keys && Online(g1) == Online(g0)
  }

  /** Messages for game `g` were sent to it, or queued for it, and no other game was touched. */
  ghost predicate GamesPass(g0: map<GameId, Gdi>, s0: map<GameId, seq<Packet>>, g1: map<GameId, Gdi>, s1: map<GameId, seq<Packet>>,
                            g: GameId, msgs: seq<Msg>, now: Time)
  {
    s0.Keys == g0.Keys && g in g0 ==>
      var (gdi, s) := Passed(g0[g], s0[g], msgs, now);
      g1 == g0[g := gdi] && s1 == s0[g := s]
  }

  /**
    Messages for game `g` were handed on to it. For a game that is not known nothing happens; when the
    game turns out to be down, entries of games that are down go.
  */
  ghost predicate HandedOn(g0: map<GameId, Gdi>, s0: map<GameId, seq<Packet>>, e0: map<EntityId, Edi>,
                           g1: map<GameId, Gdi>, s1: map<GameId, seq<Packet>>, e1: map<EntityId, Edi>, g: GameId, msgs: seq<Msg>, now: Time)
  {
    && Settled(g0, e0, g1, e1, now, Doomed(g0, now)) && Grows(s0, s1)
    && (g !in Doomed(g0, now) ==> e1 == e0 && GamesPass(g0, s0, g1, s1, g, msgs, now))
    && (g !in g0 ==> g1 == g0 && s1 == s0)
  }

  /** The queue of entity `e` came to the state `s`, and what it handed on was passed to its game. */
  ghost predicate EntryHandedOn(g0: map<GameId, Gdi>, s0: map<GameId, seq<Packet>>, e0: map<EntityId, Edi>,
                                g1: map<GameId, Gdi>, s1: map<GameId, seq<Packet>>, e1: map<EntityId, Edi>, e: EntityId, s: Q.State, now: Time)
  {
    HandedOn(g0, s0, e0[e := s.edi], g1, s1, e1, s.edi.gameid, Q.Messages(s.handed), now)
  }

  lemma ReleasedHands(edi: Edi)
    ensures
      var s := Q.Released(Q.State(edi, []));
      && s.edi == edi.(blockUntil := 0, queue := if edi.blockUntil == 0 then edi.queue else [])
      && Q.Messages(s.handed) == if edi.blockUntil == 0 then [] else edi.queue
  {
  }

  lemma HandleHands(edi: Edi, msg: Msg, now: Time)
    ensures
      var s := Q.Handle(Q.State(edi, []), Q.Packet(msg), now);
      && s.edi.gameid == edi.gameid
      && (edi.blockUntil == 0 ==> s.edi == edi && Q.Messages(s.handed) == [msg])
      && (edi.blockUntil != 0 && now < edi.blockUntil ==> Q.Messages(s.handed) == [])
      && (edi.blockUntil != 0 && now >= edi.blockUntil ==> s == Q.Released(Q.State(edi, [])))
  {
  }

  lemma HandedNothing(games: map<GameId, Gdi>, sent: map<GameId, seq<Packet>>, edis: map<EntityId, Edi>, g: GameId, now: Time)
    ensures HandedOn(games, sent, edis, games, sent, edis, g, [], now)
  {
    SameGrows(sent);
    NothingSettled(games, edis, now, Doomed(games, now));
    hide Settled, Grows;
    assert g in games ==> games[g := games[g]] == games;
    assert g in sent ==> sent[g := sent[g]] == sent;
  }

  lemma HandedOne(g0: map<GameId, Gdi>, s0: map<GameId, seq<Packet>>, g1: map<GameId, Gdi>, s1: map<GameId, seq<Packet>>,
                  g: GameId, msg: Msg, now: Time)
    requires g in g0 && g in s0
    requires var (gdi, s) := Dispatched(g0[g], s0[g], ToEntity(msg), now); g1 == g0[g := gdi] && s1 == s0[g := s]
    ensures GamesPass(g0, s0, g1, s1, g, [msg], now)
  {
    PassedOne(g0[g], s0[g], msg, now);
  }

  lemma HandedToGame(g0: map<GameId, Gdi>, s0: map<GameId, seq<Packet>>, e0: map<EntityId, Edi>,
                     g1: map<GameId, Gdi>, s1: map<GameId, seq<Packet>>, e1: map<EntityId, Edi>, g: GameId, msg: Msg, now: Time)
    requires g in g0 && g in s0 && Settled(g0, e0, g1, e1, now, Doomed(g0, now)) && Grows(s0, s1)
    requires g !in Doomed(g0, now) ==>
               var (gdi, s) := Dispatched(g0[g], s0[g], ToEntity(msg), now); g1 == g0[g := gdi] && s1 == s0[g := s] && e1 == e0
    ensures HandedOn(g0, s0, e0, g1, s1, e1, g, [msg], now)
  {
    hide Settled, Grows, GamesPass, Doomed, Dispatched;
    if g !in Doomed(g0, now) {
      HandedOne(g0, s0, g1, s1, g, msg, now);
    }
  }

  lemma HandedToNone(games: map<GameId, Gdi>, sent: map<GameId, seq<Packet>>, edis: map<EntityId, Edi>, g: GameId, msg: Msg, now: Time)
    requires g !in games
    ensures HandedOn(games, sent, edis, games, sent, edis, g, [msg], now)
  {
    SameGrows(sent);
    NothingSettled(games, edis, now, Doomed(games, now));
  }

  /** The entry of the entity makes no difference, as long as its game is the same. */
  lemma CleanHanded(g0: map<GameId, Gdi>, s0: map<GameId, seq<Packet>>, e0: map<EntityId, Edi>, g1: map<GameId, Gdi>,
                    s1: map<GameId, seq<Packet>>, e1: map<EntityId, Edi>, msg: Msg, edi: Edi, now: Time)
    requires msg.RealMigrate? && HandedOn(g0, s0, e0, g1, s1, e1, msg.gameid, [msg], now)
    requires msg.eid in e0 && edi.gameid == e0[msg.eid].gameid
    ensures HandedOn(g0, s0, e0[msg.eid := edi], g1, s1, if msg.eid in e1 then e1[msg.eid := edi] else e1, msg.gameid, [msg], now)
  {
    hide GamesPass, Grows, Doomed;
  }

  /** A connected game is not found to be down. */
  lemma HandedPass(g0: map<GameId, Gdi>, s0: map<GameId, seq<Packet>>, e0: map<EntityId, Edi>,
                   g1: map<GameId, Gdi>, s1: map<GameId, seq<Packet>>, e1: map<EntityId, Edi>, g: GameId, msgs: seq<Msg>, now: Time)
    requires g in g0 && g0[g].connected
    ensures HandedOn(g0, s0, e0, g1, s1, e1, g, msgs, now) ==> GamesPass(g0, s0, g1, s1, g, msgs, now)
    ensures GamesPass(g0, s0, g0, s0, g, [], now)
  {
    hide Grows, Settled;
    HandedNothing(g0, s0, e0, g, now);
  }

  lemma GamesPassMore(g0: map<GameId, Gdi>, s0: map<GameId, seq<Packet>>, g1: map<GameId, Gdi>, s1: map<GameId, seq<Packet>>,
                      g2: map<GameId, Gdi>, s2: map<GameId, seq<Packet>>, g: GameId, first: seq<Msg>, more: seq<Msg>, now: Time)
    requires GamesPass(g0, s0, g1, s1, g, first, now) && GamesPass(g1, s1, g2, s2, g, more, now)
    ensures GamesPass(g0, s0, g2, s2, g, first + more, now)
  {
    if s0.Keys == g0.Keys && g in g0 {
      PassedMore(g0[g], s0[g], first, more, now);
      hide Passed;
      var (gdi, s) := Passed(g0[g], s0[g], first, now);
      var (gdi', s') := Passed(gdi, s, more, now);
      assert g1[g] == gdi && s1[g] == s && s1.Keys == g1.Keys;
      assert g2 == g0[g := gdi] [g := gdi'] == g0[g := gdi'];
      assert s2 == s0[g := s][g := s'] == s0[g := s'];
    }
  }

  lemma HandedMore(g0: map<GameId, Gdi>, s0: map<GameId, seq<Packet>>, e0: map<EntityId, Edi>,
                   g1: map<GameId, Gdi>, s1: map<GameId, seq<Packet>>, e1: map<EntityId, Edi>,
                   g2: map<GameId, Gdi>, s2: map<GameId, seq<Packet>>, e2: map<EntityId, Edi>,
                   g: GameId, first: seq<Msg>, more: seq<Msg>, now: Time)
    requires HandedOn(g0, s0, e0, g1, s1, e1, g, first, now) && HandedOn(g1, s1, e1, g2, s2, e2, g, more, now)
    ensures HandedOn(g0, s0, e0, g2, s2, e2, g, first + more, now)
  {
    GrowsTrans(s0, s1, s2);
    SettledTrans(g0, e0, g1, e1, g2, e2, now, Doomed(g0, now), Doomed(g1, now));
    SettledWider(g0, e0, g2, e2, now, Doomed(g0, now) + Doomed(g1, now), Doomed(g0, now));
    assert g1.Keys == g0.Keys;
    hide Settled, Grows, GamesPass, Doomed;
    if g !in Doomed(g0, now) {
      GamesPassMore(g0, s0, g1, s1, g2, s2, g, first, more, now);
    }
  }

  /** The entry of an entity, as setEntityDispatcherInfoForWrite makes sure that there is one. */
  function EntryFor(edis: map<EntityId, Edi>, e: EntityId): Edi
  {
    if e in edis then edis[e] else Edi(0, 0, [])
  }

  function UnblockedEdi(edi: Edi): Edi
  {
    if edi.blockUntil != 0 then Edi(edi.gameid, 0, []) else edi
  }

  /**
    Game `g` says that it holds the entities `eids`: those another game holds are rejected, and the
    entries of all others are at `g` and not blocked any more.
  */
  ghost predicate TakenIn(e0: map<EntityId, Edi>, e1: map<EntityId, Edi>, g: GameId, eids: seq<EntityId>, rejected: seq<EntityId>)
  {
    && (forall e :: e in rejected <==> e in eids && EntryFor(e0, e).gameid !in {0, g})
    && (forall e :: e in e1 <==> e in e0 || e in eids)
    && (forall e | e in eids && e !in rejected :: e in e1 && e1[e] == UnblockedEdi(EntryFor(e0, e).(gameid := g)))
    && (forall e | e in e1 && (e !in eids || e in rejected) :: e in e0 && e1[e] == e0[e])
  }

  lemma TakenInOne(e0: map<EntityId, Edi>, e1: map<EntityId, Edi>, e2: map<EntityId, Edi>, g: GameId,
                   eids: seq<EntityId>, i: nat, rejected: seq<EntityId>, other: bool)
    requires i < |eids| && TakenIn(e0, e1, g, eids[..i], rejected) && g != 0
    requires other <==> EntryFor(e1, eids[i]).gameid !in {0, g}
    requires e2 == if other then e1 else e1[eids[i] := UnblockedEdi(EntryFor(e1, eids[i]).(gameid := g))]
    ensures TakenIn(e0, e2, g, eids[..i + 1], if other then rejected + [eids[i]] else rejected)
    ensures !other ==> eids[i] !in rejected
    ensures (forall e | e in rejected :: e in eids[..i]) && (other && eids[i] in eids[..i] ==> eids[i] in rejected)
  {
    assert eids[..i + 1] == eids[..i] + [eids[i]];
    var e := eids[i];
    assert e in eids[..i] && e !in rejected ==> e1[e].gameid == g;
    if !other {
      assert UnblockedEdi(EntryFor(e1, e).(gameid := g)) == UnblockedEdi(EntryFor(e0, e).(gameid := g));
    }
    assert EntryFor(e1, e).gameid in {0, g} <==> EntryFor(e0, e).gameid in {0, g};
    hide UnblockedEdi, EntryFor;
  }

  lemma TakenInNone(e0: map<EntityId, Edi>, g: GameId)
    ensures TakenIn(e0, e0, g, [], [])
  {
  }

  /** What waits for the entities that game `g` says it holds, but for those of other games. */
  function WaitingFor(edis: map<EntityId, Edi>, g: GameId, eids: seq<EntityId>): seq<Msg>
  {
    if |eids| == 0 then [] else
    var n := |eids| - 1;
    var e := eids[n];
    WaitingFor(edis, g, eids[..n]) +
      if e in edis && edis[e].gameid in {0, g} && edis[e].blockUntil != 0 && e !in eids[..n] then edis[e].queue else []
  }

  lemma WaitingMore(edis: map<EntityId, Edi>, g: GameId, eids: seq<EntityId>, i: nat)
    requires i < |eids|
    ensures
      var e := eids[i];
      WaitingFor(edis, g, eids[..i + 1]) == WaitingFor(edis, g, eids[..i]) +
        if e in edis && edis[e].gameid in {0, g} && edis[e].blockUntil != 0 && e !in eids[..i] then edis[e].queue else []
  {
    assert eids[..i + 1][..i] == eids[..i];
  }

  /** What waits for an entity when its turn comes: nothing any more when it had one before. */
  lemma WaitingNow(e0: map<EntityId, Edi>, e1: map<EntityId, Edi>, g: GameId, eids: seq<EntityId>, i: nat, rejected: seq<EntityId>)
    requires i < |eids| && TakenIn(e0, e1, g, eids[..i], rejected) && g != 0
    ensures
      var e := eids[i];
      WaitingFor(e0, g, eids[..i + 1]) == WaitingFor(e0, g, eids[..i]) +
        if e in e1 && e1[e].gameid in {0, g} && e1[e].blockUntil != 0 then e1[e].queue else []
  {
    WaitingMore(e0, g, eids, i);
  }

  lemma {:induction false} NothingWaits(edis: map<EntityId, Edi>, g: GameId, eids: seq<EntityId>)
    requires forall e | e in eids && e in edis :: edis[e].blockUntil == 0
    ensures WaitingFor(edis, g, eids) == []
    decreases |eids|
  {
    if |eids| > 0 {
      NothingWaits(edis, g, eids[..|eids| - 1]);
    }
  }

  lemma NothingPassed(g0: map<GameId, Gdi>, s0: map<GameId, seq<Packet>>, g1: map<GameId, Gdi>, s1: map<GameId, seq<Packet>>, g: GameId, now: Time)
    requires GamesPass(g0, s0, g1, s1, g, [], now) && g in g0 && s0.Keys == g0.Keys
    ensures g1 == g0 && s1 == s0
  {
    assert g0 == g0[g := g0[g]] && s0 == s0[g := s0[g]];
  }

  lemma PassConnected(g0: map<GameId, Gdi>, s0: map<GameId, seq<Packet>>, g1: map<GameId, Gdi>, s1: map<GameId, seq<Packet>>,
                      g: GameId, msgs: seq<Msg>, now: Time)
    requires GamesPass(g0, s0, g1, s1, g, msgs, now) && g in g0 && s0.Keys == g0.Keys
    ensures forall h | h in g0 :: h in g1 && g1[h].connected == g0[h].connected
  {
  }

  /** With no other game found to be down, a packet was dispatched once to each game but `g`. */
  ghost predicate ToldOthers(g0: map<GameId, Gdi>, s0: map<GameId, seq<Packet>>, g1: map<GameId, Gdi>, s1: map<GameId, seq<Packet>>,
                             g: GameId, pkt: Packet, now: Time)
  {
    Doomed(g0, now) <= {g} && s0.Keys == g0.Keys ==> forall h | h in g0 && h != g ::
      h in g1 && h in s1 && (g1[h], s1[h]) == Dispatched(g0[h], s0[h], pkt, now)
  }

  lemma NewsTold(g2: map<GameId, Gdi>, s2: map<GameId, seq<Packet>>, g3: map<GameId, Gdi>, s3: map<GameId, seq<Packet>>, g: GameId,
                 msgs: seq<Msg>, ack: Packet, g4: map<GameId, Gdi>, s4: map<GameId, seq<Packet>>, pkt: Packet, now: Time)
    requires g in g2 && g in s3 && g2[g].connected && GamesPass(g2, s2, g3, s3, g, msgs, now)
    requires Delivered(g3, s3[g := s3[g] + [ack]], g4, s4, pkt, {g}, now)
    ensures ToldOthers(g2, s2, g4, s4, g, pkt, now)
  {
    if Doomed(g2, now) <= {g} && s2.Keys == g2.Keys {
      PassConnected(g2, s2, g3, s3, g, msgs, now);
      assert forall h | h in g2 && h != g :: g3[h] == g2[h] && s3[h] == s2[h];
      NoOtherDoomed(g2, g3, g, now);
      hide Grows, Doomed, Dispatched, Passed;
    }
  }

  lemma NoOtherDoomed(g2: map<GameId, Gdi>, g3: map<GameId, Gdi>, g: GameId, now: Time)
    requires Doomed(g2, now) <= {g} && g in g2 && g3.Keys == g2.Keys && g3[g].connected
    requires forall h | h in g2 && h != g :: g3[h] == g2[h]
    ensures Doomed(g3, now) == {}
  {
    forall h | h in g3
      ensures h !in Doomed(g3, now)
    {
      assert h in Doomed(g2, now) ==> h == g;
    }
  }

  /** What became of the game itself before does not matter. */
  lemma ToldAnyway(g0: map<GameId, Gdi>, s0: map<GameId, seq<Packet>>, g1: map<GameId, Gdi>, s1: map<GameId, seq<Packet>>,
                   g2: map<GameId, Gdi>, s2: map<GameId, seq<Packet>>, g: GameId, pkt: Packet, now: Time)
    requires ToldOthers(g1, s1, g2, s2, g, pkt, now) && g in g1 && s1.Keys == g1.Keys
    requires g1 == g0[g := g1[g]] && s1 == s0[g := s1[g]]
    ensures ToldOthers(g0, s0, g2, s2, g, pkt, now)
  {
    if Doomed(g0, now) <= {g} {
      forall h | h in Doomed(g1, now)
        ensures h == g
      {
        assert h != g ==> h in Doomed(g0, now);
      }
      hide Doomed, Dispatched;
    }
  }

  predicate NothingStuck(games: map<GameId, Gdi>)
  {
    forall g | g in games && games[g].isBlocked && games[g].blockUntil == 0 :: games[g].queue == []
  }

  /** There is no other game, and this one is not connected. */
  predicate Alone(games: map<GameId, Gdi>, g: GameId)
  {
    games.Keys <= {g} && (g in games ==> !games[g].connected)
  }

  /**
    With no game found to be down, a packet was dispatched to each game just once, but for those in
    `left`: sent, or queued while there is no connection or a freeze is going on.
  */
  ghost predicate Delivered(g0: map<GameId, Gdi>, s0: map<GameId, seq<Packet>>, g1: map<GameId, Gdi>, s1: map<GameId, seq<Packet>>,
                            pkt: Packet, left: set<GameId>, now: Time)
  {
    && Grows(s0, s1)
    && (Doomed(g0, now) == {} && s0.Keys == g0.Keys ==>
          g1.Keys == g0.Keys == s1.Keys && forall g | g in g0 ::
            (g1[g], s1[g]) == if g in left then (g0[g], s0[g]) else Dispatched(g0[g], s0[g], pkt, now))
  }

  lemma PlacedSteady(gdi: Gdi, s: seq<Packet>, pkt: Packet, m: Services, out: bool)
    requires SteadyAt(gdi, s, m, out) && !pkt.SetGameIDAck?
    ensures var (gdi', s') := Placed(gdi, s, pkt); SteadyAt(gdi', s', Told(m, pkt), out) && s <= s' && gdi'.connected == gdi.connected
  {
    assert (s + [pkt])[..|s|] == s;
    KnownMore(s, pkt, m);
    KnownMore(gdi.queue, pkt, m);
    hide Known;
  }

  lemma KnownMore(s: seq<Packet>, pkt: Packet, m: Services)
    requires Known(s, m) && !pkt.SetGameIDAck?
    ensures Known(s, Told(m, pkt)) && Known(s + [pkt], Told(m, pkt))
  {
  }

  lemma DeliverNone(g0: map<GameId, Gdi>, s0: map<GameId, seq<Packet>>, pkt: Packet, left: set<GameId>, now: Time)
    requires g0.Keys <= left
    ensures Delivered(g0, s0, g0, s0, pkt, left, now)
  {
  }

  lemma DeliverOne(g0: map<GameId, Gdi>, s0: map<GameId, seq<Packet>>, g1: map<GameId, Gdi>, s1: map<GameId, seq<Packet>>,
                   g2: map<GameId, Gdi>, s2: map<GameId, seq<Packet>>, pkt: Packet, left: set<GameId>, h: GameId, now: Time)
    requires Delivered(g0, s0, g1, s1, pkt, left, now) && h in left && h in g1 && s1.Keys == g1.Keys && Grows(s1, s2)
    requires h !in Doomed(g1, now) ==>
               var (gdi, s) := Dispatched(g1[h], s1[h], pkt, now); g2 == g1[h := gdi] && s2 == s1[h := s]
    ensures Delivered(g0, s0, g2, s2, pkt, left - {h}, now)
  {
    GrowsTrans(s0, s1, s2);
    hide Grows, Dispatched, Expired;
    if Doomed(g0, now) == {} && s0.Keys == g0.Keys {
      assert (g1[h], s1[h]) == (g0[h], s0[h]);
      SameDoom(g0, g1, h, now);
      hide Doomed;
      assert g2.Keys == g0.Keys == s2.Keys;
      forall g | g in g0
        ensures (g2[g], s2[g]) == if g in left - {h} then (g0[g], s0[g]) else Dispatched(g0[g], s0[g], pkt, now)
      {
        if g == h {
          assert (g2[h], s2[h]) == Dispatched(g1[h], s1[h], pkt, now);
        } else {
          assert (g2[g], s2[g]) == (g1[g], s1[g]);
        }
      }
    }
  }

  lemma SameDoom(g0: map<GameId, Gdi>, g1: map<GameId, Gdi>, h: GameId, now: Time)
    requires h in g0 && h in g1 && g1[h] == g0[h]
    ensures h in Doomed(g1, now) <==> h in Doomed(g0, now)
  {
  }

  /** A broadcast keeps every connected game up to date. */
  lemma DeliveredSteady(g0: map<GameId, Gdi>, s0: map<GameId, seq<Packet>>, g1: map<GameId, Gdi>, s1: map<GameId, seq<Packet>>,
                        pkt: Packet, left: set<GameId>, now: Time)
    requires Delivered(g0, s0, g1, s1, pkt, left, now) && !pkt.SetGameIDAck?
    ensures !pkt.SrvdisRegister? ==> Keeps(g0, s0, g1, s1)
    ensures forall m | left == {} && Steady(g0, s0, m, {}) :: Kept(g0, s0, g1, s1, Told(m, pkt), {})
  {
    hide Placed, Synced, Told, Known;
    forall m, out | Steady(g0, s0, m, out)
      ensures left == {} || !pkt.SrvdisRegister? ==> Kept(g0, s0, g1, s1, Told(m, pkt), out)
      ensures !pkt.SrvdisRegister? ==> Kept(g0, s0, g1, s1, m, out)
    {
      ToldNothing({m}, pkt);
      assert Doomed(g0, now) == {} && forall g | g in g0 :: Checked(g0[g], now) == g0[g];
      forall g | g in g0
        ensures left == {} || !pkt.SrvdisRegister? ==> SteadyAt(g1[g], s1[g], Told(m, pkt), g in out) && s0[g] <= s1[g] && g1[g].connected == g0[g].connected
      {
        PlacedSteady(g0[g], s0[g], pkt, m, g in out);
      }
    }
  }

  /** A packet about an entity tells nothing about services; with a frozen game there is nothing to keep. */
  lemma DispatchKeeps(g0: map<GameId, Gdi>, s0: map<GameId, seq<Packet>>, g1: map<GameId, Gdi>, s1: map<GameId, seq<Packet>>,
                      g: GameId, msg: Msg, now: Time)
    requires g in g0 && s0.Keys == g0.Keys
    requires g !in Doomed(g0, now) ==>
               var (gdi, s) := Dispatched(g0[g], s0[g], ToEntity(msg), now); g1 == g0[g := gdi] && s1 == s0[g := s]
    ensures Keeps(g0, s0, g1, s1)
  {
    hide Synced, Placed, Told, Known;
    forall m, out | Steady(g0, s0, m, out)
      ensures Kept(g0, s0, g1, s1, m, out)
    {
      PlacedSteady(g0[g], s0[g], ToEntity(msg), m, g in out);
      ToldNothing({m}, ToEntity(msg));
    }
  }

  lemma ToldNothing(ms: set<Services>, pkt: Packet)
    ensures !pkt.SrvdisRegister? ==> forall m | m in ms :: Told(m, pkt) == m
  {
  }

  /** The queue of a game, and whether a game that is on its way out is connected, say nothing either. */
  lemma QueueKeeps(games: map<GameId, Gdi>, sent: map<GameId, seq<Packet>>, g: GameId, gdi: Gdi)
    requires g in games && gdi.isBlocked == games[g].isBlocked && gdi.connected == games[g].connected
    requires gdi.queue == games[g].queue || gdi.queue == []
    ensures Keeps(games, sent, games[g := gdi], sent)
  {
  }

  /** A game that loses its connection need not be up to date any more. */
  lemma DropSteady(games: map<GameId, Gdi>, sent: map<GameId, seq<Packet>>, m: Services, out: set<GameId>, g: GameId)
    requires g in games
    ensures
      var games' := games[g := games[g].(connected := false)];
      Online(games') == Online(games) - {g} && (Steady(games, sent, m, out) ==> Steady(games', sent, m, out))
  {
  }

  lemma ReplyKeeps(games: map<GameId, Gdi>, sent: map<GameId, seq<Packet>>, g: GameId, msg: Msg)
    requires g in games && sent.Keys == games.Keys
    ensures Keeps(games, sent, games, sent[g := sent[g] + [ToEntity(msg)]])
  {
    hide Known;
    assert (sent[g] + [ToEntity(msg)])[..|sent[g]|] == sent[g];
    forall m, out | Steady(games, sent, m, out)
      ensures Known(sent[g] + [ToEntity(msg)], m)
    {
      KnownMore(sent[g], ToEntity(msg), m);
    }
  }

  lemma KeepsAll(games: map<GameId, Gdi>, sent: map<GameId, seq<Packet>>)
    ensures Keeps(games, sent, games, sent)
  {
  }

  lemma KeepsTrans(g0: map<GameId, Gdi>, s0: map<GameId, seq<Packet>>, g1: map<GameId, Gdi>, s1: map<GameId, seq<Packet>>,
                   g2: map<GameId, Gdi>, s2: map<GameId, seq<Packet>>)
    requires Keeps(g0, s0, g1, s1) && Keeps(g1, s1, g2, s2)
    ensures Keeps(g0, s0, g2, s2)
  {
  }

  class DispatcherService {
    var games: map<GameId, Gdi>
    var edis: map<EntityId, Edi>
    var srvdisRegisterMap: Services
    /** The packets handed to each game's connections so far. */
    var sent: map<GameId, seq<Packet>>
    /** Histories: every packet given to dispatchPacketToGame, and the calls taken in. */
    ghost var handed: seq<(GameId, Msg)>
    ghost var accepted: map<EntityId, seq<CallId>>

    /** No game is marked as frozen without a deadline while packets wait for it. */
    ghost predicate Valid()
      reads this
    {
      sent.Keys == games.Keys && NothingStuck(games)
    }

    constructor ()
      ensures Valid() && games == map[] && edis == map[] && srvdisRegisterMap == map[] && sent == map[]
      ensures handed == [] && accepted == map[]
    {
      games, edis, srvdisRegisterMap, sent, handed, accepted := map[], map[], map[], map[], [], map[];
    }

    /** Every game is connected, not frozen, and has nothing queued. */
    ghost predicate AllUp()
      reads this
    {
      forall g | g in games :: games[g].connected && !games[g].isBlocked && games[g].queue == []
    }

    /** The dispatcher as the migration protocol sees it. */
    ghost function D(): Dispatcher
      requires Valid()
      reads this
    {
      Dispatcher(edis, map g | g in games :: Messages(sent[g]), accepted)
    }

    /** gameDispatchInfo.dispatchPacket for game `g`. */
    method DispatchPacket(g: GameId, pkt: Packet, now: Instant)
      requires Valid() && g in games
      modifies this`games, this`edis, this`sent
      ensures Valid() && Settled(old(games), old(edis), games, edis, now, old(Doomed(games, now)))
      ensures !Expired(games[g], now)
      ensures g !in old(Doomed(games, now)) ==>
        var (gdi, s) := Dispatched(old(games)[g], old(sent)[g], pkt, now);
        games == old(games)[g := gdi] && sent == old(sent)[g := s] && edis == old(edis)
      ensures g in old(Doomed(games, now)) ==>
        && (forall e | e in edis :: edis[e].gameid !in old(Doomed(games, now)))
        && (forall h | h in games :: !Expired(games[h], now))
      ensures Grows(old(sent), sent)
      decreases BlockedGames(games), 1
    {
      hide Settled, Doomed, BlockedGames, Checked, Placed, NothingStuck, Grows;
      CheckBlocked(g, now);
      ghost var games1, sent1 := games, sent;
      PlacedQueueOnly(games1[g], sent[g], pkt);
      SendOrQueue(g, pkt);
      PlacedGrows(sent1, g, games1[g], pkt);
      GrowsTrans(old(sent), sent1, sent);
      QueueOnly(games1, edis, g, games[g], now);
      assert old(games)[g := games1[g]][g := games[g]] == old(games)[g := games[g]];
      SettledTrans(old(games), old(edis), games1, edis, games, edis, now, old(Doomed(games, now)), {});
      assert old(Doomed(games, now)) + {} == old(Doomed(games, now));
    }

    /** The first half: ends a freeze that ran out, and cleans up after a game that is gone. */
    method CheckBlocked(g: GameId, now: Instant)
      requires Valid() && g in games
      modifies this`games, this`edis, this`sent
      ensures Valid() && Settled(old(games), old(edis), games, edis, now, old(Doomed(games, now)))
      ensures games.Keys == old(games).Keys && !Expired(games[g], now)
      ensures g !in old(Doomed(games, now)) ==>
        games == old(games)[g := Checked(old(games)[g], now)] && sent == old(sent) && edis == old(edis)
      ensures g in old(Doomed(games, now)) ==>
        && (forall e | e in edis :: edis[e].gameid !in old(Doomed(games, now)))
        && (forall h | h in games :: !Expired(games[h], now))
      ensures Grows(old(sent), sent)
      decreases BlockedGames(games), 0
    {
      SameGrows(sent);
      hide Grows;
      if Expired(games[g], now) {
        ghost var games0, edis0 := games, edis;
        games := games[g := games[g].(isBlocked := false)];
        Fewer(games0, games, g, now);
        if !games[g].connected {
          ghost var games1 := games;
          ghost var sent1 := sent;
          HandleGameDown(g, now);
          DeliveredGrows(games1[g := games1[g].(queue := [])], sent1, games, sent, GameDown(g), {}, now);
          SettledTrans(games0, edis0, games1, edis0, games, edis, now, {}, Doomed(games1, now) + {g});
          assert {} + (Doomed(games1, now) + {g}) == Doomed(games0, now);
        }
      }
    }

    /** The second half of gameDispatchInfo.dispatchPacket. */
    method SendOrQueue(g: GameId, pkt: Packet)
      requires Valid() && g in games && (games[g].isBlocked ==> games[g].blockUntil != 0)
      modifies this`games, this`sent
      ensures Valid()
      ensures
        var (gdi, s) := Placed(old(games)[g], old(sent)[g], pkt);
        games == old(games)[g := gdi] && sent == old(sent)[g := s]
    {
      var gdi := games[g];
      if !gdi.isBlocked && gdi.connected {
        sent := sent[g := sent[g] + [pkt]];
      } else if |gdi.queue| < GAME_PENDING_PACKET_QUEUE_MAX_LEN {
        games := games[g := gdi.(queue := gdi.queue + [pkt])];
      }
    }

    /** handleGameDown: drop the game's entities and queue, and tell all games. */
    method HandleGameDown(g: GameId, now: Instant)
      requires Valid() && g in games
      modifies this`games, this`edis, this`sent
      ensures Valid() && Settled(old(games), old(edis), games, edis, now, old(Doomed(games, now)) + {g})
      ensures forall e | e in edis :: edis[e].gameid != g
      ensures forall h | h in games :: !Expired(games[h], now)
      ensures forall e | e in edis :: edis[e].gameid !in old(Doomed(games, now))
      ensures Keeps(old(games), old(sent), games, sent)
      ensures Delivered(old(games)[g := old(games)[g].(queue := [])], old(sent), games, sent, GameDown(g), {}, now)
      decreases BlockedGames(games), 3
    {
      ghost var games0, edis0 := games, edis;
      edis := Without(edis, g);
      games := games[g := games[g].(queue := [])];
      ghost var games1, edis1, sent1 := games, edis, sent;
      QueueKeeps(games0, sent1, g, games1[g]);
      DownSettled(games0, edis0, g, now);
      hide Keeps, Steady, Delivered, Grows, Settled, Doomed, BlockedGames;
      BroadcastToGames(GameDown(g), now);
      DeliveredSteady(games1, sent1, games, sent, GameDown(g), {}, now);
      KeepsTrans(games0, sent1, games1, sent1, games, sent);
      SettledTrans(games0, edis0, games1, edis1, games, edis, now, Doomed(games0, now) + {g}, Doomed(games0, now));
      SettledWider(games0, edis0, games, edis, now, Doomed(games0, now) + {g} + Doomed(games0, now), Doomed(games0, now) + {g});
      GoneWith(games1, edis1, games, edis, g, now);
    }

    /** broadcastToGames, in whatever order the map is traversed. */
    method BroadcastToGames(pkt: Packet, now: Instant)
      requires Valid() && !pkt.SetGameIDAck?
      modifies this`games, this`edis, this`sent
      ensures Valid() && Settled(old(games), old(edis), games, edis, now, old(Doomed(games, now)))
      ensures forall h | h in games :: !Expired(games[h], now)
      ensures forall e | e in edis :: edis[e].gameid !in old(Doomed(games, now))
      ensures Delivered(old(games), old(sent), games, sent, pkt, {}, now)
      decreases BlockedGames(games), 2
    {
      hide Delivered, Dispatched, NothingStuck, Grows;
      ghost var games0, edis0, sent0 := games, edis, sent;
      DeliverNone(games0, sent0, pkt, games.Keys, now);
      var left := games.Keys;
      while left != {}
        invariant Valid() && left <= games.Keys
        invariant Settled(games0, edis0, games, edis, now, Doomed(games0, now))
        invariant Delivered(games0, sent0, games, sent, pkt, left, now)
        invariant BlockedGames(games) <= BlockedGames(games0)
        invariant forall h | h in games && h !in left :: !Expired(games[h], now)
        invariant forall e | e in edis && edis[e].gameid in Doomed(games0, now) :: edis[e].gameid in Doomed(games, now)
        decreases left
      {
        ghost var games1, edis1, sent1, left1 := games, edis, sent, left;
        var h :| h in left;
        left := left - {h};
        DispatchPacket(h, pkt, now);
        SettledTrans(games0, edis0, games1, edis1, games, edis, now, Doomed(games0, now), Doomed(games1, now));
        SettledWider(games0, edis0, games, edis, now, Doomed(games0, now) + Doomed(games1, now), Doomed(games0, now));
        NotDoomed(games1, games, h, now);
        DeliverOne(games0, sent0, games1, sent1, games, sent, pkt, left1, h, now);
      }
      assert Doomed(games, now) == {};
    }

    // ---------- Entities ----------

    /** dispatchPacketToGame. */
    method DispatchPacketToGame(g: GameId, msg: Msg, now: Instant)
      requires Valid()
      modifies this`games, this`edis, this`sent, this`handed
      ensures Valid() && Settled(old(games), old(edis), games, edis, now, old(Doomed(games, now)))
      ensures handed == old(handed) + [(g, msg)]
      ensures old(g in games && games[g].connected) ==> edis == old(edis) && g in games && games[g].connected
      ensures old(AllUp()) ==> AllUp() && edis == old(edis) && D() == SendToGame(old(D()), g, [msg])
      ensures Keeps(old(games), old(sent), games, sent)
      ensures HandedOn(old(games), old(sent), old(edis), games, sent, edis, g, [msg], now)
    {
      hide Settled, Doomed, BlockedGames, Steady, Keeps, NothingStuck, HandedOn;
      ghost var games0, sent0, edis0 := games, sent, edis;
      KeepsAll(games, sent);
      handed := handed + [(g, msg)];
      NothingSettled(games, edis, now, Doomed(games, now));
      if g in games {
        NoneDoomed(games, now);
        ConnectedSafe(games, g, now);
        MessagesAppend(sent[g], msg);
        DispatchPacket(g, ToEntity(msg), now);
        DispatchKeeps(old(games), old(sent), games, sent, g, msg, now);
        HandedToGame(games0, sent0, edis0, games, sent, edis, g, msg, now);
      } else {
        HandedToNone(games, sent, edis, g, msg, now);
      }
    }

    /** The loop of unblock: the queue goes to the entity's game, packet by packet. */
    method SendPending(target: GameId, pending: seq<Msg>, now: Instant)
      requires Valid()
      modifies this`games, this`edis, this`sent, this`handed
      ensures Valid() && games.Keys == old(games).Keys
      ensures handed == old(handed) + Q.Addressed(target, pending)
      ensures forall x | x in edis :: x in old(edis) && edis[x] == old(edis)[x]
      ensures pending == [] ==> edis == old(edis)
      ensures old(target in games && games[target].connected) ==> edis == old(edis) && games[target].connected
      ensures old(AllUp()) ==> AllUp() && edis == old(edis) && D() == SendToGame(old(D()), target, pending)
      ensures Keeps(old(games), old(sent), games, sent)
      ensures HandedOn(old(games), old(sent), old(edis), games, sent, edis, target, pending, now)
    {
      hide Doomed, BlockedGames, Messages, Steady, Keeps, NothingStuck, SendToGame, Q.Addressed, HandedOn;
      ghost var edis0, d0, handed0 := edis, D(), handed;
      HandedNothing(games, sent, edis, target, now);
      assert pending[..0] == [];
      KeepsAll(games, sent);
      AddressedNone(target, pending, handed0);
      SendNothing(d0, target);
      for i := 0 to |pending|
        invariant Valid() && games.Keys == old(games).Keys
        invariant handed == handed0 + Q.Addressed(target, pending[..i])
        invariant forall x | x in edis :: x in edis0 && edis[x] == edis0[x]
        invariant i == 0 ==> edis == edis0
        invariant old(target in games && games[target].connected) ==> edis == edis0 && games[target].connected
        invariant old(AllUp()) ==> AllUp() && edis == edis0 && D() == SendToGame(d0, target, pending[..i])
        invariant Keeps(old(games), old(sent), games, sent)
        invariant HandedOn(old(games), old(sent), edis0, games, sent, edis, target, pending[..i], now)
      {
        ghost var games1, sent1, edis1 := games, sent, edis;
        DispatchPacketToGame(target, pending[i], now);
        KeepsTrans(old(games), old(sent), games1, sent1, games, sent);
        HandedMore(old(games), old(sent), edis0, games1, sent1, edis1, games, sent, edis, target, pending[..i], [pending[i]], now);
        assert pending[..i + 1] == pending[..i] + [pending[i]];
        AddressedMore(d0, target, pending, i, handed0);
      }
      assert pending[..|pending|] == pending;
    }

    /** unblock: the entry is clean before its queue is sent, during which it may vanish. */
    method UnblockEntity(e: EntityId, now: Instant)
      requires Valid() && e in edis
      modifies this`games, this`edis, this`sent, this`handed
      ensures Valid() && games.Keys == old(games).Keys
      ensures Q.State(if e in edis then edis[e] else Edi(old(edis)[e].gameid, 0, []), handed)
           == Q.Released(Q.State(old(edis)[e], old(handed)))
      ensures e !in edis ==> old(edis)[e].blockUntil != 0 && |old(edis)[e].queue| > 0
      ensures
        var g := old(edis)[e].gameid;
        g in old(games) && old(games)[g].connected ==> games[g].connected && e in edis && edis == old(edis)[e := edis[e]]
      ensures old(edis)[e].blockUntil == 0 ==> games == old(games) && sent == old(sent) && edis == old(edis)
      ensures old(AllUp()) ==> AllUp() && e in edis && D() == Unblock(old(D()), e)
      ensures Keeps(old(games), old(sent), games, sent)
      ensures EntryHandedOn(old(games), old(sent), old(edis), games, sent, edis, e, Q.Released(Q.State(old(edis)[e], [])), now)
    {
      hide Messages, Steady, Keeps, HandedOn;
      ReleasedHands(edis[e]);
      KeepsAll(games, sent);
      HandedNothing(games, sent, edis, edis[e].gameid, now);
      assert edis == edis[e := edis[e]];
      if edis[e].blockUntil != 0 {
        var target, pending := edis[e].gameid, edis[e].queue;
        edis := edis[e := Edi(target, 0, [])];
        SendPending(target, pending, now);
      }
    }

    /** blockRPC: the deadline only grows. */
    method BlockEntity(e: EntityId, now: Instant, duration: Time)
      requires Valid() && e in edis
      modifies this`edis
      ensures Valid() && e in edis && edis == old(edis)[e := edis[e]]
      ensures Q.State(edis[e], handed) == Q.Handle(Q.State(old(edis)[e], handed), Q.BlockRPC(duration), now)
      ensures D() == BlockRPC(old(D()), e, now, duration)
    {
      var until := now + duration;
      if edis[e].blockUntil < until {
        edis := edis[e := edis[e].(blockUntil := until)];
      }
    }

    /**
      entityDispatchInfo.dispatchPacket: in every state of the games the packet and the queue go
      where `EntityQueue.Handle` says; the entry itself may vanish with a game found to be down.
    */
    method DispatchPacketToEntity(msg: Msg, now: Instant) returns (dropped: bool)
      requires Valid() && msg.eid in edis
      modifies this`games, this`edis, this`sent, this`handed, this`accepted
      ensures Valid()
      ensures
        var e, s := msg.eid, Q.Handle(Q.State(old(edis)[msg.eid], old(handed)), Q.Packet(msg), now);
        handed == s.handed && (e in edis ==> edis[e] == s.edi)
      ensures dropped <==> Q.FateOf(Q.State(old(edis)[msg.eid], old(handed)), now) == Q.Refused
      ensures old(AllUp()) ==>
        AllUp() && msg.eid in edis && D() == Migration.DispatchPacket(old(D()), msg, now)
      ensures Keeps(old(games), old(sent), games, sent)
      ensures EntryHandedOn(old(games), old(sent), old(edis), games, sent, edis, msg.eid,
                            Q.Handle(Q.State(old(edis)[msg.eid], []), Q.Packet(msg), now), now)
    {
      hide Doomed, BlockedGames, Messages, Steady, Keeps, HandedOn;
      KeepsAll(games, sent);
      HandleHands(edis[msg.eid], msg, now);
      assert edis == edis[msg.eid := edis[msg.eid]];
      dropped := false;
      var edi := edis[msg.eid];
      if edi.blockUntil == 0 {
        DispatchPacketToGame(edi.gameid, msg, now);
        accepted := Record(accepted, msg);
      } else if now < edi.blockUntil {
        if |edi.queue| < ENTITY_PENDING_PACKET_QUEUE_MAX_LEN {
          edis := edis[msg.eid := edi.(queue := edi.queue + [msg])];
          accepted := Record(accepted, msg);
        } else {
          dropped := true;
        }
        HandedNothing(games, sent, edis, edi.gameid, now);
      } else {
        UnblockEntity(msg.eid, now);
      }
    }

    // ---------- Handlers ----------

    method SetEntityDispatcherInfoForWrite(e: EntityId)
      requires Valid()
      modifies this`edis
      ensures Valid() && e in edis && D() == ForWrite(old(D()), e)
      ensures edis == old(edis)[e := EntryFor(old(edis), e)]
    {
      assert e in edis ==> edis == edis[e := edis[e]];
      if e !in edis {
        edis := edis[e := Edi(0, 0, [])];
      }
    }

    /** dcp.SendPacket on the connection a packet came from. */
    method Reply(src: GameId, msg: Msg)
      requires Valid() && src in games
      modifies this`sent
      ensures sent == old(sent)[src := old(sent)[src] + [ToEntity(msg)]]
      ensures Valid() && D() == SendToGame(old(D()), src, [msg])
      ensures Keeps(old(games), old(sent), games, sent)
    {
      ReplyKeeps(games, sent, src, msg);
      hide Steady, Keeps;
      MessagesAppend(sent[src], msg);
      sent := sent[src := sent[src] + [ToEntity(msg)]];
    }

    method HandleCallEntityMethod(msg: Msg, now: Instant)
      requires Valid()
      modifies this`games, this`edis, this`sent, this`handed, this`accepted
      ensures Valid()
      ensures msg.eid !in old(edis) ==> games == old(games) && edis == old(edis) && sent == old(sent) && handed == old(handed)
      ensures msg.eid in old(edis) ==>
        var e, s := msg.eid, Q.Handle(Q.State(old(edis)[msg.eid], old(handed)), Q.Packet(msg), now);
        handed == s.handed && (e in edis ==> edis[e] == s.edi)
      ensures msg.eid in old(edis) ==>
        EntryHandedOn(old(games), old(sent), old(edis), games, sent, edis, msg.eid,
                      Q.Handle(Q.State(old(edis)[msg.eid], []), Q.Packet(msg), now), now)
      ensures old(AllUp()) ==> AllUp() && D() == Migration.HandleCallEntityMethod(old(D()), msg, now)
      ensures Keeps(old(games), old(sent), games, sent)
    {
      hide Steady, Keeps, HandedOn;
      KeepsAll(games, sent);
      if msg.eid in edis {
        var dropped := DispatchPacketToEntity(msg, now);
      }
    }

    method HandleQuerySpaceGameIDForMigrate(src: GameId, msg: Msg)
      requires Valid() && src in games && msg.QuerySpace?
      modifies this`sent
      ensures Valid() && D() == HandleQuerySpace(old(D()), src, msg)
      ensures
        var answer := QuerySpace(msg.eid, msg.space, if msg.space in edis then edis[msg.space].gameid else 0);
        sent == old(sent)[src := old(sent)[src] + [ToEntity(answer)]]
      ensures Keeps(old(games), old(sent), games, sent)
    {
      hide Steady, Keeps;
      KeepsAll(games, sent);
      var gameid := 0;
      if msg.space in edis {
        gameid := edis[msg.space].gameid;
      }
      Reply(src, QuerySpace(msg.eid, msg.space, gameid));
    }

    method HandleMigrateRequest(src: GameId, msg: Msg, now: Instant)
      requires Valid() && src in games && msg.MigrateRequest?
      modifies this`edis, this`sent
      ensures Valid() && D() == Migration.HandleMigrateRequest(old(D()), src, msg, now)
      ensures sent == old(sent)[src := old(sent)[src] + [ToEntity(msg)]]
      ensures
        var edi := EntryFor(old(edis), msg.eid);
        var until := now + 60_000_000_000;
        edis == old(edis)[msg.eid := edi.(blockUntil := if edi.blockUntil < until then until else edi.blockUntil)]
      ensures Keeps(old(games), old(sent), games, sent)
    {
      hide Steady, Keeps;
      KeepsAll(games, sent);
      SetEntityDispatcherInfoForWrite(msg.eid);
      BlockEntity(msg.eid, now, DISPATCHER_MIGRATE_TIMEOUT);
      Reply(src, msg);
    }

    method HandleCancelMigrate(msg: Msg, now: Instant)
      requires Valid()
      modifies this`games, this`edis, this`sent, this`handed
      ensures Valid()
      ensures msg.eid !in old(edis) ==> games == old(games) && edis == old(edis) && sent == old(sent) && handed == old(handed)
      ensures msg.eid in old(edis) ==>
        var e, s := msg.eid, Q.Released(Q.State(old(edis)[msg.eid], old(handed)));
        handed == s.handed && (e in edis ==> edis[e] == s.edi)
      ensures msg.eid in old(edis) ==>
        EntryHandedOn(old(games), old(sent), old(edis), games, sent, edis, msg.eid, Q.Released(Q.State(old(edis)[msg.eid], [])), now)
      ensures old(AllUp()) ==> AllUp() && D() == Migration.HandleCancelMigrate(old(D()), msg)
      ensures Keeps(old(games), old(sent), games, sent)
    {
      hide Steady, Keeps, HandedOn;
      KeepsAll(games, sent);
      if msg.eid in edis {
        UnblockEntity(msg.eid, now);
      }
    }

    method HandleRealMigrate(msg: Msg, now: Instant)
      requires Valid() && msg.RealMigrate?
      modifies this`games, this`edis, this`sent, this`handed
      ensures Valid()
      ensures
        var edi := EntryFor(old(edis), msg.eid);
        && handed == old(handed) + [(msg.gameid, msg)] + Q.Addressed(msg.gameid, if edi.blockUntil != 0 then edi.queue else [])
        && (msg.eid in edis ==> edis[msg.eid] == Edi(msg.gameid, 0, if edi.blockUntil != 0 then [] else edi.queue))
      ensures
        var edi := EntryFor(old(edis), msg.eid);
        HandedOn(old(games), old(sent), old(edis)[msg.eid := Edi(msg.gameid, 0, if edi.blockUntil != 0 then [] else edi.queue)],
                 games, sent, edis, msg.gameid, [msg] + if edi.blockUntil != 0 then edi.queue else [], now)
      ensures old(AllUp()) ==> AllUp() && D() == Migration.HandleRealMigrate(old(D()), msg)
      ensures Keeps(old(games), old(sent), games, sent)
    {
      hide Steady, Keeps, HandedOn, Messages, NothingStuck;
      KeepsAll(games, sent);
      SetEntityDispatcherInfoForWrite(msg.eid);
      edis := edis[msg.eid := edis[msg.eid].(gameid := msg.gameid)];
      ghost var edi := edis[msg.eid];
      assert edis[msg.eid := Edi(edi.gameid, 0, if edi.blockUntil != 0 then [] else edi.queue)]
          == old(edis)[msg.eid := Edi(edi.gameid, 0, if edi.blockUntil != 0 then [] else edi.queue)];
      RelayAndUnblock(msg, now);
    }

    /** Its end: the packet goes to the game, and the entry that the entity has by then is unblocked. */
    method RelayAndUnblock(msg: Msg, now: Instant)
      requires Valid() && msg.RealMigrate? && msg.eid in edis && edis[msg.eid].gameid == msg.gameid
      modifies this`games, this`edis, this`sent, this`handed
      ensures Valid()
      ensures
        var edi := old(edis)[msg.eid];
        && handed == old(handed) + [(msg.gameid, msg)] + Q.Addressed(msg.gameid, if edi.blockUntil != 0 then edi.queue else [])
        && (msg.eid in edis ==> edis[msg.eid] == Edi(msg.gameid, 0, if edi.blockUntil != 0 then [] else edi.queue))
      ensures
        var edi := old(edis)[msg.eid];
        HandedOn(old(games), old(sent), old(edis)[msg.eid := Edi(msg.gameid, 0, if edi.blockUntil != 0 then [] else edi.queue)],
                 games, sent, edis, msg.gameid, [msg] + if edi.blockUntil != 0 then edi.queue else [], now)
      ensures old(AllUp()) ==> AllUp() && D() == Unblock(SendToGame(old(D()), msg.gameid, [msg]), msg.eid)
      ensures Keeps(old(games), old(sent), games, sent)
    {
      hide Steady, Keeps, HandedOn, Messages, NothingStuck, Doomed, BlockedGames, SendToGame, Q.Addressed;
      var e, edi := msg.eid, edis[msg.eid];
      SendEdis(D(), msg.gameid, [msg]);
      ghost var edis1 := edis;
      DispatchPacketToGame(msg.gameid, msg, now);
      // the entry may be gone by now, with a game found to be down; its queue is sent all the same
      if edi.blockUntil != 0 {
        CleanHanded(old(games), old(sent), edis1, games, sent, edis, msg, Edi(edi.gameid, 0, []), now);
        if e in edis {
          edis := edis[e := Edi(edi.gameid, 0, [])];
        }
        ghost var games2, sent2, edis2 := games, sent, edis;
        SendPending(edi.gameid, edi.queue, now);
        KeepsTrans(old(games), old(sent), games2, sent2, games, sent);
        HandedMore(old(games), old(sent), edis1[e := Edi(edi.gameid, 0, [])], games2, sent2, edis2, games, sent, edis,
                   msg.gameid, [msg], edi.queue, now);
      } else {
        assert [msg] + [] == [msg] && edis1 == edis1[e := Edi(edi.gameid, 0, edi.queue)];
        AddressedNone(msg.gameid, [], handed);
      }
    }

    method HandleNotifyCreateEntity(src: GameId, msg: Msg, now: Instant)
      requires Valid()
      modifies this`games, this`edis, this`sent, this`handed
      ensures Valid()
      ensures
        var edi := EntryFor(old(edis), msg.eid);
        var s := Q.Released(Q.State(edi.(gameid := src), old(handed)));
        handed == s.handed && (msg.eid in edis ==> edis[msg.eid] == s.edi)
      ensures
        var edi := EntryFor(old(edis), msg.eid);
        EntryHandedOn(old(games), old(sent), old(edis), games, sent, edis, msg.eid, Q.Released(Q.State(edi.(gameid := src), [])), now)
      ensures old(AllUp()) ==> AllUp() && D() == HandleNotifyCreate(old(D()), src, msg)
      ensures Keeps(old(games), old(sent), games, sent)
    {
      hide Steady, Keeps, HandedOn;
      KeepsAll(games, sent);
      SetEntityDispatcherInfoForWrite(msg.eid);
      edis := edis[msg.eid := edis[msg.eid].(gameid := src)];
      assert forall s: Q.State :: edis[msg.eid := s.edi] == old(edis)[msg.eid := s.edi];
      UnblockEntity(msg.eid, now);
    }

    // ---------- Games that freeze, disconnect and come back ----------

    /**
      handleStartFreezeGame: the game is told to freeze. Until it is restored or the freeze runs
      out no packet is sent to it: each one is queued, unless the queue is full.
    */
    method HandleStartFreezeGame(g: GameId, now: Instant)
      requires Valid() && g in games
      modifies this`games, this`sent
      ensures Valid() && sent == old(sent)[g := old(sent)[g] + [StartFreezeAck]]
      ensures games == old(games)[g := games[g]] && games[g].isBlocked && games[g].connected == old(games)[g].connected
      ensures games[g].queue == old(games)[g].queue
      ensures forall pkt, t: Time | t <= now + DISPATCHER_FREEZE_GAME_TIMEOUT ::
                var (gdi, s) := Dispatched(games[g], sent[g], pkt, t);
                s == sent[g] && !Expired(games[g], t) && gdi == games[g].(queue := gdi.queue)
                && gdi.queue == games[g].queue + if |games[g].queue| < GAME_PENDING_PACKET_QUEUE_MAX_LEN then [pkt] else []
      ensures games[g].blockUntil == now + DISPATCHER_FREEZE_GAME_TIMEOUT
    {
      games := games[g := games[g].(isBlocked := true, blockUntil := now + DISPATCHER_FREEZE_GAME_TIMEOUT)];
      sent := sent[g := sent[g] + [StartFreezeAck]];
      ghost var q := games[g].queue;
      assert q + [] == q;
    }

    /** handleGameDisconnected for the game's current connection. */
    method HandleGameDisconnected(g: GameId, now: Instant)
      requires Valid() && g in games
      modifies this`games, this`edis, this`sent
      ensures Valid() && games.Keys == old(games).Keys && !games[g].connected
      ensures old(games)[g].isBlocked ==> edis == old(edis) && sent == old(sent) && games[g].queue == old(games)[g].queue
      ensures forall e | e in old(edis) && old(edis)[e].gameid == g :: e in edis <==> old(games)[g].isBlocked
      ensures old(games)[g].isBlocked ==> games == old(games)[g := old(games)[g].(connected := false)]
      ensures forall e | e in edis :: e in old(edis) && edis[e] == old(edis)[e]
      ensures Keeps(old(games)[g := old(games)[g].(connected := false)], old(sent), games, sent)
      ensures !old(games)[g].isBlocked ==>
        var cut := old(games)[g := old(games)[g].(connected := false)];
        Delivered(cut[g := cut[g].(queue := [])], old(sent), games, sent, GameDown(g), {}, now)
      ensures forall e | e in old(edis) && e !in edis ::
                old(edis)[e].gameid in Doomed(old(games)[g := old(games)[g].(connected := false)], now) + {g}
    {
      CutNotStuck(games, g);
      games := games[g := games[g].(connected := false)];
      KeepsAll(games, sent);
      hide Keeps, Steady, Delivered, Settled, Doomed, NothingStuck, BlockedGames, Expired;
      if !games[g].isBlocked {
        ghost var games1 := games;
        HandleGameDown(g, now);
        GoneWith(games1, old(edis), games, edis, g, now);
      }
    }

    /**
      setClientProxy and unblock of a game that has just connected: its whole queue is sent before
      anything else. A freeze is over, but the mark of it stays until the next packet.
    */
    method ConnectGame(g: GameId)
      requires Valid() && g in games
      modifies this`games, this`sent
      ensures Valid()
      ensures games == old(games)[g := Gdi(true, old(games)[g].isBlocked, 0, [])]
      ensures sent == old(sent)[g := old(sent)[g] + old(games)[g].queue]
    {
      ghost var gdi, before := games[g], sent[g];
      games := games[g := games[g].(connected := true)];
      if !games[g].isBlocked {
        FlushGame(g);
      }
      if games[g].blockUntil != 0 {
        games := games[g := games[g].(blockUntil := 0)];
        FlushGame(g);
      }
      assert before + gdi.queue + [] == before + gdi.queue;
      assert gdi.queue == [] ==> before + gdi.queue == before;
    }

    /** sendPendingPackets. */
    method FlushGame(g: GameId)
      requires g in games && g in sent
      modifies this`games, this`sent
      ensures games == old(games)[g := old(games)[g].(queue := [])]
      ensures sent == old(sent)[g := old(sent)[g] + old(games)[g].queue]
    {
      var pending := games[g].queue;
      games := games[g := games[g].(queue := [])];
      assert old(sent)[g] + pending[..0] == old(sent)[g];
      for i := 0 to |pending|
        invariant games == old(games)[g := old(games)[g].(queue := [])]
        invariant sent == old(sent)[g := old(sent)[g] + pending[..i]]
      {
        assert old(sent)[g] + pending[..i + 1] == old(sent)[g] + pending[..i] + [pending[i]];
        sent := sent[g := sent[g] + [pending[i]]];
      }
      assert pending[..|pending|] == pending;
    }

    /** One entity a game says it holds; `other` when another game holds it. */
    method RestoreEntity(g: GameId, e: EntityId, now: Instant) returns (other: bool)
      requires Valid() && g in games && games[g].connected && g != 0
      modifies this`games, this`edis, this`sent, this`handed
      ensures Valid() && games.Keys == old(games).Keys && games[g].connected
      ensures other <==> EntryFor(old(edis), e).gameid !in {0, g}
      ensures edis == if other then old(edis) else old(edis)[e := UnblockedEdi(EntryFor(old(edis), e).(gameid := g))]
      ensures Keeps(old(games), old(sent), games, sent)
      ensures
        var waiting := if e in old(edis) && old(edis)[e].gameid in {0, g} && old(edis)[e].blockUntil != 0 then old(edis)[e].queue else [];
        GamesPass(old(games), old(sent), games, sent, g, waiting, now)
    {
      hide Keeps, Steady, HandedOn, GamesPass;
      KeepsAll(games, sent);
      HandedPass(games, sent, edis, games, sent, edis, g, [], now);
      SetEntityDispatcherInfoForWrite(e);
      assert e in old(edis) ==> edis == old(edis);
      other := edis[e].gameid != g && edis[e].gameid != 0;
      if !other {
        edis := edis[e := edis[e].(gameid := g)];
        ghost var edi, games1, sent1, edis1 := edis[e], games, sent, edis;
        UnblockEntity(e, now);
        ReleasedHands(edi);
        HandedPass(games1, sent1, edis1[e := Q.Released(Q.State(edi, [])).edi], games, sent, edis, g, if edi.blockUntil == 0 then [] else edi.queue, now);
      }
    }

    /**
      The loop of handleSetGameID over the entities a game says it holds: each one becomes, or
      stays, an unblocked entity of that game, except those another game holds, which are rejected.
    */
    method RestoreEntities(g: GameId, eids: seq<EntityId>, now: Instant) returns (rejected: seq<EntityId>)
      requires Valid() && g in games && games[g].connected && g != 0
      modifies this`games, this`edis, this`sent, this`handed
      ensures Valid() && games.Keys == old(games).Keys && forall h | h in games :: games[h].connected == old(games)[h].connected
      ensures Keeps(old(games), old(sent), games, sent)
      ensures TakenIn(old(edis), edis, g, eids, rejected)
      ensures GamesPass(old(games), old(sent), games, sent, g, WaitingFor(old(edis), g, eids), now)
    {
      hide Keeps, Steady, NothingStuck, GamesPass, TakenIn, WaitingFor;
      KeepsAll(games, sent);
      HandedPass(games, sent, edis, games, sent, edis, g, [], now);
      NothingWaits(edis, g, []);
      TakenInNone(edis, g);
      rejected := [];
      for i := 0 to |eids|
        invariant Keeps(old(games), old(sent), games, sent)
        invariant Valid() && games.Keys == old(games).Keys && games[g].connected
        invariant TakenIn(old(edis), edis, g, eids[..i], rejected)
        invariant GamesPass(old(games), old(sent), games, sent, g, WaitingFor(old(edis), g, eids[..i]), now)
      {
        var e := eids[i];
        ghost var games1, sent1, edis1 := games, sent, edis;
        WaitingNow(old(edis), edis1, g, eids, i, rejected);
        var other := RestoreEntity(g, e, now);
        KeepsTrans(old(games), old(sent), games1, sent1, games, sent);
        GamesPassMore(old(games), old(sent), games1, sent1, games, sent, g, WaitingFor(old(edis), g, eids[..i]),
                      if e in edis1 && edis1[e].gameid in {0, g} && edis1[e].blockUntil != 0 then edis1[e].queue else [], now);
        TakenInOne(old(edis), edis1, edis, g, eids, i, rejected, other);
        if other {
          rejected := rejected + [e];
        }
      }
      assert eids[..|eids|] == eids;
      PassConnected(old(games), old(sent), games, sent, g, WaitingFor(old(edis), g, eids), now);
    }

    // ---------- Services ----------

    /** No game is frozen, and what was sent to each connected game amounts to the services registered. */
    ghost predicate Replicated()
      reads this
    {
      Steady(games, sent, srvdisRegisterMap, {})
    }

    /** handleSrvdisRegister: a registration that is taken is passed on to all games. */
    method HandleSrvdisRegister(srvid: Str, srvinfo: Str, force: bool, now: Instant)
      requires Valid()
      modifies this`games, this`edis, this`sent, this`srvdisRegisterMap
      ensures Valid() && srvdisRegisterMap == Registered(old(srvdisRegisterMap), srvid, srvinfo, force)
      ensures
        if Taken(old(srvdisRegisterMap), srvid, force)
        then
          && Delivered(old(games), old(sent), games, sent, SrvdisRegister(srvid, srvinfo), {}, now)
          && Settled(old(games), old(edis), games, edis, now, old(Doomed(games, now)))
        else games == old(games) && sent == old(sent) && edis == old(edis)
      ensures old(Replicated()) ==>
        Replicated() && Grows(old(sent), sent) && games.Keys == old(games).Keys && Online(games) == Online(old(games))
    {
      SameGrows(sent);
      hide Steady, Grows, Delivered, Settled, Doomed;
      var curinfo := if srvid in srvdisRegisterMap then srvdisRegisterMap[srvid] else [];
      if force || curinfo == [] {
        ghost var before := srvdisRegisterMap;
        srvdisRegisterMap := srvdisRegisterMap[srvid := srvinfo];
        ghost var games0, sent0 := games, sent;
        BroadcastToGames(SrvdisRegister(srvid, srvinfo), now);
        DeliveredSteady(games0, sent0, games, sent, SrvdisRegister(srvid, srvinfo), {}, now);
        assert Told(before, SrvdisRegister(srvid, srvinfo)) == srvdisRegisterMap;
      }
    }

    /** broadcastToGamesExcept, of the news that a game is connected. */
    method NotifyGameConnected(g: GameId, now: Instant)
      requires Valid()
      modifies this`games, this`edis, this`sent
      ensures Valid() && games.Keys == old(games).Keys
      ensures Keeps(old(games), old(sent), games, sent)
      ensures Delivered(old(games), old(sent), games, sent, GameConnected(g), {g}, now)
      ensures old(games).Keys <= {g} ==> games == old(games) && sent == old(sent) && edis == old(edis)
      ensures forall h | h in games :: games[h].connected == old(games)[h].connected
      ensures forall e | e in edis :: e in old(edis) && edis[e] == old(edis)[e]
      ensures forall e | e in old(edis) && e !in edis :: var h := old(edis)[e].gameid; h in games && !old(games)[h].connected
    {
      hide Delivered, Steady, Keeps, Placed, Checked, Doomed, Grows;
      ghost var games0, sent0 := games, sent;
      DeliverNone(games0, sent0, GameConnected(g), games.Keys + {g}, now);
      var left := games.Keys;
      while left != {}
        invariant Valid() && left <= games.Keys && games.Keys == games0.Keys
        invariant Delivered(games0, sent0, games, sent, GameConnected(g), left + {g}, now)
        invariant games0.Keys <= {g} ==> games == games0 && sent == sent0 && edis == old(edis)
        invariant forall h | h in games :: games[h].connected == games0[h].connected
        invariant forall e | e in edis :: e in old(edis) && edis[e] == old(edis)[e]
        invariant forall e | e in old(edis) && e !in edis :: var h := old(edis)[e].gameid; h in games && !games0[h].connected
        decreases left
      {
        ghost var games1, sent1, left1 := games, sent, left;
        var h :| h in left;
        left := left - {h};
        if h == g {
          assert left + {g} == left1 + {g};
        } else {
          DoomedDisconnected(games, now);
          DispatchPacket(h, GameConnected(g), now);
          DeliverOne(games0, sent0, games1, sent1, games, sent, GameConnected(g), left1 + {g}, h, now);
          assert left1 + {g} - {h} == left + {g};
        }
      }
      assert left + {g} == {g};
      DeliveredSteady(games0, sent0, games, sent, GameConnected(g), {g}, now);
    }

    /** The first half of handleSetGameID: a new game, or a new connection of a known one. */
    method AcceptConnection(g: GameId, now: Instant)
      requires Valid() && g != 0
      modifies this`games, this`edis, this`sent
      ensures Valid() && games.Keys == old(games).Keys + {g} && games[g].connected
      ensures forall e | e in edis :: e in old(edis) && edis[e] == old(edis)[e]
      ensures g in old(games) && !old(games)[g].connected ==>
        && edis == old(edis) && games == old(games)[g := Gdi(true, old(games)[g].isBlocked, 0, [])]
        && sent == old(sent)[g := old(sent)[g] + old(games)[g].queue]
      ensures old(Alone(games, g)) ==>
        games == map[g := Gdi(true, g in old(games) && old(games)[g].isBlocked, 0, [])] && edis == old(edis)
      ensures g !in old(games) ==>
        edis == old(edis) && games == old(games)[g := Gdi(true, false, 0, [])] && sent == old(sent)[g := []]
      ensures games[g].blockUntil == 0 && games[g].queue == []
      ensures old(Steady(games, sent, srvdisRegisterMap, {})) ==>
        Steady(games, sent, srvdisRegisterMap, {g}) && Grows(old(sent), sent) && Online(games) == Online(old(games)) + {g}
    {
      OnlyGame(games, g);
      hide Steady, Keeps, Synced, Grows, NothingStuck, Alone, Online;
      if g !in games {
        NewGameKeeps(games, sent, srvdisRegisterMap, g);
        games, sent := games[g := Gdi(false, false, 0, [])], sent[g := []];
        assert [] + [] == sent[g];
      } else if games[g].connected {
        ghost var dropped := games[g := games[g].(connected := false)];
        DropSteady(games, sent, srvdisRegisterMap, {}, g);
        HandleGameDisconnected(g, now);
        KeepsSteady(dropped, old(sent), games, sent, srvdisRegisterMap, {});
      } else {
        KeepsAll(games, sent);
        KeepsSteady(games, sent, games, sent, srvdisRegisterMap, {});
      }
      ghost var sent1 := sent;
      ConnectSteady(games, sent, srvdisRegisterMap, g);
      ConnectGame(g);
      if old(Steady(games, sent, srvdisRegisterMap, {})) {
        GrowsTrans(old(sent), sent1, sent);
      }
    }

    /** The end of handleSetGameID: the answer, and the news for all other games. */
    method AnswerSetGameID(g: GameId, rejected: seq<EntityId>, now: Instant)
      requires Valid() && g in games
      modifies this`games, this`edis, this`sent
      ensures Valid() && games.Keys == old(games).Keys
      ensures games[g].connected == old(games)[g].connected && Online(games) == Online(old(games))
      ensures
        var sent1 := old(sent)[g := old(sent)[g] + [SetGameIDAck(Online(games), rejected, srvdisRegisterMap)]];
        Delivered(old(games), sent1, games, sent, GameConnected(g), {g}, now)
      ensures old(Steady(games, sent, srvdisRegisterMap, {g})) ==>
        && Replicated() && Grows(old(sent), sent) && Online(games) == Online(old(games))
        && sent[g] == old(sent)[g] + [SetGameIDAck(Online(games), rejected, srvdisRegisterMap)]
      ensures old(games).Keys <= {g} ==> games == old(games)
      ensures forall e | e in edis :: e in old(edis) && edis[e] == old(edis)[e]
      ensures forall e | e in old(edis) && e !in edis :: var h := old(edis)[e].gameid; h in games && !old(games)[h].connected
    {
      hide Steady, Keeps, Synced, Grows, Online, Delivered;
      var ack := SetGameIDAck(Online(games), rejected, srvdisRegisterMap);
      AckSteady(games, sent, srvdisRegisterMap, g, ack);
      sent := sent[g := sent[g] + [ack]];
      ghost var games1, sent1 := games, sent;
      NotifyGameConnected(g, now);
      SameOnline(games1, games);
      DeliveredGrows(games1, sent1, games, sent, GameConnected(g), {g}, now);
      LeftAlone(games1, sent1, games, sent, srvdisRegisterMap, g, GameConnected(g), now);
      KeepsSteady(games1, sent1, games, sent, srvdisRegisterMap, {});
      if old(Steady(games, sent, srvdisRegisterMap, {g})) {
        GrowsTrans(old(sent), sent1, sent);
      }
    }

    /**
      handleSetGameID: an earlier connection of the game is dropped, what is queued for the game is
      sent, the entities it holds are taken in, and the answer brings it up to date.
    */
    method HandleSetGameID(g: GameId, eids: seq<EntityId>, now: Instant) returns (rejected: seq<EntityId>)
      requires Valid() && g != 0
      modifies this`games, this`edis, this`sent, this`handed
      ensures Valid() && games.Keys == old(games).Keys + {g} && games[g].connected
      ensures old(Replicated()) ==>
        && Replicated() && Grows(old(sent), sent) && Online(games) == Online(old(games)) + {g}
        && sent[g] != [] && sent[g][|sent[g]| - 1] == SetGameIDAck(Online(games), rejected, srvdisRegisterMap)
      ensures (g in old(games) ==> !old(games)[g].connected) ==>
        var queued := if g in old(games) then old(sent)[g] + old(games)[g].queue else [];
        queued + AsPackets(WaitingFor(old(edis), g, eids)) + [SetGameIDAck(Online(games), rejected, srvdisRegisterMap)] <= sent[g]
      ensures (g in old(games) ==> !old(games)[g].connected) ==>
        forall e :: e in rejected <==> e in eids && EntryFor(old(edis), e).gameid !in {0, g}
      ensures (g in old(games) ==> !old(games)[g].connected) ==> ToldOthers(old(games), old(sent), games, sent, g, GameConnected(g), now)
      ensures SetGameIDAck(Online(games), rejected, srvdisRegisterMap) in sent[g]
      ensures forall e | e in edis && (e !in eids || e in rejected) :: e in old(edis) && edis[e] == old(edis)[e]
      ensures old(Alone(games, g)) && (forall e | e in eids && e in old(edis) :: old(edis)[e].blockUntil == 0) ==>
        games == map[g := Gdi(true, g in old(games) && old(games)[g].isBlocked, 0, [])]
      ensures forall e | e in rejected :: e in eids && e in old(edis) && old(edis)[e].gameid !in {0, g}
      ensures forall e | e in eids && e !in rejected :: e in edis && edis[e].gameid == g && edis[e].blockUntil == 0
    {
      hide Steady, Keeps, Synced, Grows, Alone, NothingStuck, Online, WaitingFor, ToldOthers;
      AcceptConnection(g, now);
      ghost var games2, sent2 := games, sent;
      rejected := TakeInGame(g, eids, now);
      if g in old(games) ==> !old(games)[g].connected {
        ToldAnyway(old(games), old(sent), games2, sent2, games, sent, g, GameConnected(g), now);
      }
      if old(Replicated()) {
        GrowsTrans(old(sent), sent2, sent);
      }
    }

    /** Its second half, for a game that has just connected. */
    method TakeInGame(g: GameId, eids: seq<EntityId>, now: Instant) returns (rejected: seq<EntityId>)
      requires Valid() && g != 0 && g in games && games[g].connected && games[g].blockUntil == 0
      modifies this`games, this`edis, this`sent, this`handed
      ensures Valid() && games.Keys == old(games).Keys && games[g].connected && Online(games) == Online(old(games))
      ensures old(Steady(games, sent, srvdisRegisterMap, {g})) ==>
        && Replicated() && Grows(old(sent), sent)
        && sent[g] != [] && sent[g][|sent[g]| - 1] == SetGameIDAck(Online(games), rejected, srvdisRegisterMap)
      ensures
        var ack := SetGameIDAck(Online(games), rejected, srvdisRegisterMap);
        old(sent)[g] + AsPackets(WaitingFor(old(edis), g, eids)) + [ack] <= sent[g] && ack in sent[g]
      ensures ToldOthers(old(games), old(sent), games, sent, g, GameConnected(g), now)
      ensures old(games).Keys <= {g} && (forall e | e in eids && e in old(edis) :: old(edis)[e].blockUntil == 0) ==> games == old(games)
      ensures forall e :: e in rejected <==> e in eids && EntryFor(old(edis), e).gameid !in {0, g}
      ensures forall e | e in eids && e !in rejected :: e in edis && edis[e].gameid == g && edis[e].blockUntil == 0
      ensures forall e | e in edis && (e !in eids || e in rejected) :: e in old(edis) && edis[e] == old(edis)[e]
    {
      hide Steady, Keeps, Synced, Grows, NothingStuck, Online, GamesPass, WaitingFor, Delivered, ToldOthers;
      ghost var games2, sent2, waiting := games, sent, WaitingFor(edis, g, eids);
      rejected := RestoreEntities(g, eids, now);
      ghost var games3, sent3 := games, sent;
      KeepsSteady(games2, sent2, games, sent, srvdisRegisterMap, {g});
      if forall e | e in eids && e in old(edis) :: old(edis)[e].blockUntil == 0 {
        NothingWaits(old(edis), g, eids);
        NothingPassed(games2, sent2, games3, sent3, g, now);
      }
      SameOnline(games2, games3);
      AnswerSetGameID(g, rejected, now);
      NewsTold(games2, sent2, games3, sent3, g, waiting, SetGameIDAck(Online(games), rejected, srvdisRegisterMap), games, sent, GameConnected(g), now);
      Welcomed(games2, sent2, games3, sent3, g, waiting, SetGameIDAck(Online(games), rejected, srvdisRegisterMap), games, sent, GameConnected(g), now);
      if old(Steady(games, sent, srvdisRegisterMap, {g})) {
        GrowsTrans(sent2, sent3, sent);
      }
    }
  }

  /** The first game of a dispatcher, with the entities it holds. */
  method FirstGame(eids: seq<EntityId>, now: Instant) returns (d: DispatcherService)
    ensures fresh(d) && d.Valid() && d.games == map[1 := Gdi(true, false, 0, [])]
    ensures forall e | e in eids :: e in d.edis && d.edis[e].gameid == 1 && d.edis[e].blockUntil == 0
  {
    d := new DispatcherService();
    var rejected := d.HandleSetGameID(1, eids, now);
  }

  /**
    A run in which a packet is overtaken: one queued during a freeze that then runs out while the
    game is still connected, and a later one that is sent past it.
  */
  method OvertakingRun(first: Packet, second: Packet, now: Instant) returns (d: DispatcherService)
    ensures d.Valid() && 1 in d.games && d.games[1].connected
    ensures d.games[1].queue == [first] && |d.sent[1]| > 0 && d.sent[1][|d.sent[1]| - 1] == second
  {
    d := FirstGame([], now);
    d.HandleStartFreezeGame(1, now);
    assert 1 !in Doomed(d.games, now);
    d.DispatchPacket(1, first, now);
    ghost var frozen, sent := d.games[1], d.sent[1];
    assert frozen.queue == [first] && frozen.connected && frozen.isBlocked;
    var later := now + DISPATCHER_FREEZE_GAME_TIMEOUT + 1;
    assert Dispatched(frozen, sent, second, later) == (frozen.(isBlocked := false), sent + [second]);
    d.DispatchPacket(1, second, later);
  }

  /**
    A run in which a game is taken for frozen: restored after a freeze, it disconnects before any
    packet was dispatched to it. Its entity stays mapped to it, with no freeze going on.
  */
  method MistakenRun(e: EntityId, now: Instant) returns (d: DispatcherService)
    ensures d.Valid() && 1 in d.games && !d.games[1].connected && d.games[1].blockUntil == 0
    ensures e in d.edis && d.edis[e].gameid == 1
  {
    d := FirstGame([e], now);
    d.HandleStartFreezeGame(1, now);
    d.HandleGameDisconnected(1, now);
    var rejected := d.HandleSetGameID(1, [e], now);
    d.HandleGameDisconnected(1, now);
  }

  /** Such a game is found to be down by the next packet for it, at whatever time. */
  lemma MistakenIsDoomed(games: map<GameId, Gdi>, g: GameId, now: Instant)
    requires g in games && games[g].isBlocked && games[g].blockUntil == 0 && !games[g].connected
    ensures g in Doomed(games, now)
  {
  }

  lemma DoomedDisconnected(games: map<GameId, Gdi>, now: Time)
    ensures forall h | h in Doomed(games, now) :: h in games && !games[h].connected
  {
  }

  lemma KeepsSteady(g0: map<GameId, Gdi>, s0: map<GameId, seq<Packet>>, g1: map<GameId, Gdi>, s1: map<GameId, seq<Packet>>,
                    m: Services, out: set<GameId>)
    requires Keeps(g0, s0, g1, s1)
    ensures Steady(g0, s0, m, out) ==> Kept(g0, s0, g1, s1, m, out)
  {
  }

  /** A broadcast sends nothing to the game that is left out. */
  lemma LeftAlone(g0: map<GameId, Gdi>, s0: map<GameId, seq<Packet>>, g1: map<GameId, Gdi>, s1: map<GameId, seq<Packet>>,
                  m: Services, g: GameId, pkt: Packet, now: Time)
    requires Delivered(g0, s0, g1, s1, pkt, {g}, now) && g in g0
    ensures Steady(g0, s0, m, {}) ==> g in s0 && g in s1 && s1[g] == s0[g]
  {
    if Steady(g0, s0, m, {}) {
      assert Doomed(g0, now) == {};
      assert forall h | h in g0 :: SteadyAt(g0[h], s0[h], m, h in {});
      assert (g1[g], s1[g]) == (g0[g], s0[g]);
    }
  }

  lemma OnlyGame(games: map<GameId, Gdi>, g: GameId)
    ensures Alone(games, g) ==> (g in games ==> !games[g].connected) && forall gdi: Gdi :: games[g := gdi] == map[g := gdi]
  {
  }

  lemma SameGrows(s: map<GameId, seq<Packet>>)
    ensures Grows(s, s)
  {
  }

  lemma GrowsTrans(s0: map<GameId, seq<Packet>>, s1: map<GameId, seq<Packet>>, s2: map<GameId, seq<Packet>>)
    requires Grows(s0, s1) && Grows(s1, s2)
    ensures Grows(s0, s2)
  {
  }

  /** What waits for the entities of a game that has just connected is sent to it, and then the answer. */
  lemma Welcomed(g2: map<GameId, Gdi>, s2: map<GameId, seq<Packet>>, g3: map<GameId, Gdi>, s3: map<GameId, seq<Packet>>, g: GameId,
                 msgs: seq<Msg>, ack: Packet, g4: map<GameId, Gdi>, s4: map<GameId, seq<Packet>>, pkt: Packet, now: Instant)
    requires g in g2 && s2.Keys == g2.Keys && g2[g].connected && g2[g].blockUntil == 0
    requires GamesPass(g2, s2, g3, s3, g, msgs, now) && g in s3
    requires Delivered(g3, s3[g := s3[g] + [ack]], g4, s4, pkt, {g}, now)
    ensures g in s4 && s2[g] + AsPackets(msgs) + [ack] <= s4[g] && ack in s4[g]
  {
    assert s3[g] == s2[g] + AsPackets(msgs);
    var s := s3[g := s3[g] + [ack]];
    assert s[g] <= s4[g] && s[g][|s[g]| - 1] == ack;
  }

  lemma SameOnline(games: map<GameId, Gdi>, games': map<GameId, Gdi>)
    requires games'.Keys == games.Keys && forall h | h in games :: games'[h].connected == games[h].connected
    ensures Online(games') == Online(games)
  {
  }

  lemma NewGameKeeps(games: map<GameId, Gdi>, sent: map<GameId, seq<Packet>>, m: Services, g: GameId)
    requires g !in games && sent.Keys == games.Keys
    ensures Steady(games, sent, m, {}) ==> Steady(games[g := Gdi(false, false, 0, [])], sent[g := []], m, {})
    ensures Grows(sent, sent[g := []]) && Online(games[g := Gdi(false, false, 0, [])]) == Online(games)
    ensures NothingStuck(games) ==> NothingStuck(games[g := Gdi(false, false, 0, [])])
  {
  }

  lemma ConnectSteady(g0: map<GameId, Gdi>, s0: map<GameId, seq<Packet>>, m: Services, g: GameId)
    requires g in g0 && g in s0
    ensures
      var g1, s1 := g0[g := Gdi(true, g0[g].isBlocked, 0, [])], s0[g := s0[g] + g0[g].queue];
      Grows(s0, s1) && (Steady(g0, s0, m, {}) ==> Steady(g1, s1, m, {g})) && Online(g1) == Online(g0) + {g}
  {
    hide Synced;
  }

  lemma AckSteady(games: map<GameId, Gdi>, sent: map<GameId, seq<Packet>>, m: Services, g: GameId, ack: Packet)
    requires g in games && g in sent && ack.SetGameIDAck? && ack.services == m
    ensures Grows(sent, sent[g := sent[g] + [ack]])
    ensures Steady(games, sent, m, {g}) ==> Steady(games, sent[g := sent[g] + [ack]], m, {})
  {
  }

  lemma NothingSettled(games: map<GameId, Gdi>, edis: map<EntityId, Edi>, now: Time, downed: set<GameId>)
    ensures Settled(games, edis, games, edis, now, downed)
  {
  }

  lemma NoneDoomed(games: map<GameId, Gdi>, now: Time)
    ensures (forall g | g in games :: games[g].connected && !games[g].isBlocked) ==> Doomed(games, now) == {}
  {
  }

  lemma ConnectedSafe(games: map<GameId, Gdi>, g: GameId, now: Time)
    ensures g in games && games[g].connected ==> g !in Doomed(games, now)
    ensures g in games ==> forall s, pkt :: Dispatched(games[g], s, pkt, now).0.connected == games[g].connected
  {
  }

  lemma SendEdis(d: Dispatcher, g: GameId, msgs: seq<Msg>)
    ensures SendToGame(d, g, msgs).edis == d.edis
  {
  }

  lemma SendNothing(d: Dispatcher, g: GameId)
    ensures SendToGame(d, g, []) == d
  {
    if g in d.down {
      assert d.down[g] + [] == d.down[g];
    }
  }

  lemma AddressedNone(g: GameId, pending: seq<Msg>, handed: seq<(GameId, Msg)>)
    ensures pending[..0] == [] && handed + Q.Addressed(g, pending[..0]) == handed
  {
  }

  /** One more packet of a queue is handed on, and sent. */
  lemma AddressedMore(d: Dispatcher, g: GameId, pending: seq<Msg>, i: nat, handed: seq<(GameId, Msg)>)
    requires i < |pending|
    ensures handed + Q.Addressed(g, pending[..i]) + [(g, pending[i])] == handed + Q.Addressed(g, pending[..i + 1])
    ensures SendToGame(SendToGame(d, g, pending[..i]), g, [pending[i]]) == SendToGame(d, g, pending[..i + 1])
  {
    SendMore(d, g, pending[..i], pending[i]);
    assert pending[..i + 1] == pending[..i] + [pending[i]];
    assert Q.Addressed(g, pending[..i]) + [(g, pending[i])] == Q.Addressed(g, pending[..i + 1]);
  }

  lemma SendMore(d: Dispatcher, g: GameId, msgs: seq<Msg>, msg: Msg)
    ensures SendToGame(SendToGame(d, g, msgs), g, [msg]) == SendToGame(d, g, msgs + [msg])
  {
    if g in d.down {
      assert d.down[g] + msgs + [msg] == d.down[g] + (msgs + [msg]);
    }
  }

  /** Dispatching to a game that is not doomed dooms and saves no game. */
  lemma NotDoomed(games: map<GameId, Gdi>, games': map<GameId, Gdi>, h: GameId, now: Time)
    requires h in games
    ensures
      h !in Doomed(games, now) && h in games' && games' == games[h := games'[h]] &&
      games'[h].connected == games[h].connected && !Expired(games'[h], now) ==>
        Doomed(games', now) == Doomed(games, now)
  {
  }

  lemma PlacedGrows(sent: map<GameId, seq<Packet>>, g: GameId, gdi: Gdi, pkt: Packet)
    requires g in sent
    ensures Grows(sent, sent[g := Placed(gdi, sent[g], pkt).1])
  {
  }

  lemma DeliveredGrows(g0: map<GameId, Gdi>, s0: map<GameId, seq<Packet>>, g1: map<GameId, Gdi>, s1: map<GameId, seq<Packet>>,
                       pkt: Packet, left: set<GameId>, now: Time)
    requires Delivered(g0, s0, g1, s1, pkt, left, now)
    ensures Grows(s0, s1)
  {
  }

  lemma PlacedQueueOnly(gdi: Gdi, sent: seq<Packet>, pkt: Packet)
    ensures var gdi' := Placed(gdi, sent, pkt).0; gdi' == gdi.(queue := gdi'.queue)
  {
  }

  lemma QueueOnly(games: map<GameId, Gdi>, edis: map<EntityId, Edi>, g: GameId, gdi: Gdi, now: Time)
    requires g in games && gdi == games[g].(queue := gdi.queue)
    ensures Settled(games, edis, games[g := gdi], edis, now, {})
    ensures forall h | h in games :: Expired(games[g := gdi][h], now) == Expired(games[h], now)
  {
  }

  /** A game found expired is neither blocked nor doomed any more. */
  lemma Fewer(games: map<GameId, Gdi>, games': map<GameId, Gdi>, g: GameId, now: Time)
    requires g in games && Expired(games[g], now) && games' == games[g := games[g].(isBlocked := false)]
    ensures BlockedGames(games') < BlockedGames(games)
    ensures Doomed(games', now) == Doomed(games, now) - {g}
  {
    assert g in BlockedGames(games) && g !in BlockedGames(games');
  }
}
