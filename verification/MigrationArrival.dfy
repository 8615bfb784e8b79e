/**
  Where migrations go: a request to enter a space is answered with the game of that space, and the
  entity that leaves on it arrives there.
*/
module MigrationArrival {
  import opened Bytes
  import opened Migration
  import opened MigrationView
  import opened MigrationProof

  // ---------- A space that stays ----------

  /** The space `sp` is created at `h`, if at all, and never asks to enter another one. */
  ghost predicate Stays(steps: seq<Step>, sp: EntityId, h: GameId)
  {
    forall i | 0 <= i < |steps| :: StaysIn(steps[i], sp, h)
  }

  ghost predicate StaysIn(step: Step, sp: EntityId, h: GameId)
  {
    match step
    case CreateEntity(g, e) => e == sp ==> g == h
    case StartEnterSpace(_, e, _, _) => e != sp
    case _ => true
  }

  /** The game `h` has the space, which asks for nothing; before it is created nothing is known of it. */
  ghost predicate SpaceAt(s: System, sp: EntityId, h: GameId)
  {
    if sp in s.born then h in s.tables && sp in s.tables[h] && s.tables[h][sp].requestTime == 0
    else forall g | g in s.tables :: sp !in s.tables[g]
  }

  /** The game of the space, and zero before it is created. */
  ghost function HomeOf(s: System, sp: EntityId, h: GameId): GameId
  {
    if sp in s.born then h else 0
  }

  /** A packet about entering the space names its game, or none in a question and its answer. */
  predicate Fits(m: Msg, sp: EntityId, h: GameId)
  {
    match m
    case QuerySpace(_, space, gameid) => space == sp ==> gameid == 0 || gameid == h
    case MigrateRequest(_, space, gameid) => space == sp ==> gameid == h && h != 0
    case _ => true
  }

  ghost predicate AllFit(ch: seq<Msg>, sp: EntityId, h: GameId)
  {
    forall i | 0 <= i < |ch| :: Fits(ch[i], sp, h)
  }

  ghost predicate ChannelsFit(channels: map<GameId, seq<Msg>>, sp: EntityId, h: GameId)
  {
    forall g | g in channels :: AllFit(channels[g], sp, h)
  }

  ghost predicate Directed(s: System, sp: EntityId, h: GameId)
  {
    var home := HomeOf(s, sp, h);
    SpaceAt(s, sp, h) && ChannelsFit(s.up, sp, home) && ChannelsFit(s.d.down, sp, home)
  }

  /** The dispatcher knows of the space exactly what is true, once it knows of it. */
  lemma KnownPlace(s: System, sp: EntityId, h: GameId)
    requires Inv(s) && SpaceAt(s, sp, h)
    ensures sp in s.d.edis ==> s.d.edis[sp].gameid == h && sp in s.born
    ensures sp in s.born ==> !s.tables[h][sp].posted
  {
    var ph := PhaseOfSpace(s, sp, h);
    EdiView(s.d, sp);
  }

  lemma PhaseOfSpace(s: System, sp: EntityId, h: GameId) returns (ph: Phase)
    requires Inv(s) && SpaceAt(s, sp, h)
    ensures InPhase(ViewOf(s, sp), sp, s.tables.Keys, ph)
    ensures sp in s.born ==> (ph.Creating? || ph.Home?) && ph.at == h && ph.req.Idle? && !s.tables[h][sp].posted
    ensures sp !in s.born ==> ph.Unborn?
    ensures ph.Home? ==> Control(ph.a) == []
  {
    hide About, Control, Calls;
    assert HasPhase(ViewOf(s, sp), sp, s.tables.Keys);
    ph :| InPhase(ViewOf(s, sp), sp, s.tables.Keys, ph);
    if sp in s.born {
      assert h in ViewOf(s, sp).held && ViewOf(s, sp).held[h] == s.tables[h][sp];
    }
  }

  // ---------- Packets stay directed ----------

  lemma FitAppend(a: seq<Msg>, b: seq<Msg>, sp: EntityId, h: GameId)
    requires AllFit(a, sp, h) && AllFit(b, sp, h)
    ensures AllFit(a + b, sp, h)
  {
  }

  lemma SendFits(d: Dispatcher, g: GameId, msgs: seq<Msg>, sp: EntityId, h: GameId)
    requires ChannelsFit(d.down, sp, h) && AllFit(msgs, sp, h)
    ensures ChannelsFit(SendToGame(d, g, msgs).down, sp, h)
  {
    if g in d.down {
      FitAppend(d.down[g], msgs, sp, h);
    }
  }

  lemma CallsFit(q: seq<Msg>, e: EntityId, sp: EntityId, h: GameId)
    requires OnlyCalls(q, e)
    ensures AllFit(q, sp, h)
  {
  }

  lemma UnblockFits(d: Dispatcher, e: EntityId, sp: EntityId, h: GameId)
    requires e in d.edis && OnlyCalls(d.edis[e].queue, e) && ChannelsFit(d.down, sp, h)
    ensures ChannelsFit(Unblock(d, e).down, sp, h)
  {
    var edi := d.edis[e];
    CallsFit(edi.queue, e, sp, h);
    SendFits(SetEdi(d, e, Edi(edi.gameid, 0, [])), edi.gameid, edi.queue, sp, h);
  }

  /** Whatever the dispatcher does, what it sends about entering the space names the space's game. */
  lemma HandleFits(d: Dispatcher, src: GameId, m: Msg, now: Time, sp: EntityId, h: GameId)
    requires ChannelsFit(d.down, sp, h) && Fits(m, sp, h) && EdiOk(d, m.eid)
    requires sp in d.edis ==> d.edis[sp].gameid == h
    ensures ChannelsFit(DispatcherHandle(d, src, m, now).down, sp, h)
  {
    var c := m.eid;
    hide ChannelsFit;
    assert AllFit([m], sp, h);
    match m
    case Call(_, _) =>
      if c in d.edis {
        SendFits(d, d.edis[c].gameid, [m], sp, h);
        UnblockFits(d, c, sp, h);
      }
    case QuerySpace(_, space, _) =>
      SendFits(d, src, [QuerySpace(c, space, if space in d.edis then d.edis[space].gameid else 0)], sp, h);
    case MigrateRequest(_, _, _) =>
      SendFits(BlockRPC(ForWrite(d, c), c, now, DISPATCHER_MIGRATE_TIMEOUT), src, [m], sp, h);
    case CancelMigrate(_) =>
      if c in d.edis {
        UnblockFits(d, c, sp, h);
      }
    case RealMigrate(_, to, _) =>
      var d1 := ForWrite(d, c);
      var d2 := SetEdi(d1, c, d1.edis[c].(gameid := to));
      SendFits(d2, to, [m], sp, h);
      UnblockFits(SendToGame(d2, to, [m]), c, sp, h);
    case NotifyCreate(_) =>
      var d1 := ForWrite(d, c);
      UnblockFits(SetEdi(d1, c, d1.edis[c].(gameid := src)), c, sp, h);
  }

  /** What a game sends in answer to a packet about entering the space names the space's game, too. */
  lemma AnswerFits(table: map<EntityId, Entity>, m: Msg, now: Time, sp: EntityId, h: GameId)
    requires Fits(m, sp, h)
    ensures AllFit(GameHandle(table, m, now).sent, sp, h)
  {
  }

  lemma EnterFits(table: map<EntityId, Entity>, e: EntityId, space: EntityId, here: bool, now: Time, sp: EntityId, h: GameId)
    requires e in table
    ensures AllFit(EnterSpace(table, e, space, here, now).sent, sp, h)
    ensures AllFit(FinishEnterSpace(table, e).sent, sp, h)
  {
  }

  lemma AtGameFits(s: System, g: GameId, o: Outcome, sp: EntityId, h: GameId)
    requires g in s.up && ChannelsFit(s.up, sp, h) && AllFit(o.sent, sp, h)
    ensures ChannelsFit(AtGame(s, g, o).up, sp, h)
  {
    FitAppend(s.up[g], o.sent, sp, h);
  }

  lemma StepFits(s: System, step: Step, now: Time, sp: EntityId, h: GameId)
    requires Inv(s) && Enabled(s, step) && Directed(s, sp, h)
    ensures ChannelsFit(Do(s, step, now).up, sp, HomeOf(s, sp, h)) && ChannelsFit(Do(s, step, now).d.down, sp, HomeOf(s, sp, h))
  {
    assert WellFormed(s);
    var home := HomeOf(s, sp, h);
    hide Inv;
    match step
    case CreateEntity(g, e) =>
      AtGameFits(s, g, Outcome(s.tables[g][e := Entity([], 0, 0, false)], [NotifyCreate(e)]), sp, home);
    case SendCall(src, e, id) =>
      FitAppend(s.up[src], [Call(e, id)], sp, home);
    case StartEnterSpace(g, e, space, here) =>
      EnterFits(s.tables[g], e, space, here, now, sp, home);
      AtGameFits(s, g, EnterSpace(s.tables[g], e, space, here, now), sp, home);
    case PostedEnterSpace(g, e) =>
      EnterFits(s.tables[g], e, 0, false, now, sp, home);
      AtGameFits(s, g, FinishEnterSpace(s.tables[g], e), sp, home);
    case GameReceive(g) =>
      var m := s.d.down[g][0];
      assert Fits(m, sp, home) && AllFit(s.d.down[g][1..], sp, home);
      AnswerFits(s.tables[g], m, now, sp, home);
      AtGameFits(s, g, GameHandle(s.tables[g], m, now), sp, home);
      hide GameHandle;
    case DispatcherReceive(src) =>
      var m := s.up[src][0];
      assert Fits(m, sp, home) && AllFit(s.up[src][1..], sp, home);
      KnownPlace(s, sp, h);
      EdiOfPhase(s, m.eid);
      HandleFits(s.d, src, m, now, sp, home);
      hide DispatcherHandle;
  }

  /** Once the space is created, packets may name its game. */
  lemma FitsLater(channels: map<GameId, seq<Msg>>, sp: EntityId, h: GameId)
    ensures ChannelsFit(channels, sp, 0) ==> ChannelsFit(channels, sp, h)
  {
  }

  // ---------- The space stays where it is ----------

  /** A packet about the space that its game receives is a call; no other game receives any. */
  lemma OnlyCallsArrive(s: System, g: GameId, sp: EntityId, h: GameId)
    requires Inv(s) && SpaceAt(s, sp, h) && g in s.tables && s.d.down[g] != [] && s.d.down[g][0].eid == sp
    ensures g == h && s.d.down[g][0].Call? && sp in s.born
  {
    var ph := PhaseOfSpace(s, sp, h);
    Pop(s.d.down[g], sp);
    FallingUpdate(s.d.down, g, s.d.down[g], sp);
    FirstDown(ViewOf(s, sp), sp, s.tables.Keys, ph, g, s.d.down[g][0], About(s.d.down[g][1..], sp));
  }

  lemma StepStays(s: System, step: Step, now: Time, sp: EntityId, h: GameId)
    requires Inv(s) && Enabled(s, step) && SpaceAt(s, sp, h) && StaysIn(step, sp, h)
    ensures SpaceAt(Do(s, step, now), sp, h)
  {
    assert WellFormed(s);
    match step
    case CreateEntity(g, e) => hide Inv;
    case SendCall(src, e, id) => hide Inv;
    case StartEnterSpace(g, e, space, here) =>
      hide Inv, EnterSpace;
      EnterOther(s.tables[g], e, space, here, now, sp);
    case PostedEnterSpace(g, e) =>
      KnownPlace(s, sp, h);
      if e == sp {
        OnlyThere(s, sp, h, g);
      } else {
        EnterOther(s.tables[g], e, 0, false, now, sp);
      }
      hide Inv, FinishEnterSpace;
    case GameReceive(g) =>
      var m := s.d.down[g][0];
      if m.eid == sp {
        OnlyCallsArrive(s, g, sp, h);
        hide Inv;
      } else {
        OutcomeLocal(s.tables[g], m, now, sp);
        hide Inv, GameHandle;
      }
    case DispatcherReceive(src) => hide Inv, DispatcherHandle;
  }

  lemma OnlyThere(s: System, sp: EntityId, h: GameId, g: GameId)
    requires Inv(s) && SpaceAt(s, sp, h) && g in s.tables && sp in s.tables[g]
    ensures sp in s.born && g == h
  {
    var ph := PhaseOfSpace(s, sp, h);
    assert g in ViewOf(s, sp).held;
  }

  /** Over every timely run, all packets about entering the space are directed to its game. */
  lemma {:induction false} RunDirected(states: seq<System>, steps: seq<Step>, times: seq<Time>, i: nat, sp: EntityId, h: GameId)
    requires Run(states, steps, times) && i < |states| && Stays(steps, sp, h)
    ensures Inv(states[i]) && Directed(states[i], sp, h)
  {
    RunKeepsInv(states, steps, times, i);
    if i > 0 {
      RunDirected(states, steps, times, i - 1, sp, h);
      assert StaysIn(steps[i - 1], sp, h) && states[i - 1 + 1] == Do(states[i - 1], steps[i - 1], times[i - 1]);
      StepFits(states[i - 1], steps[i - 1], times[i - 1], sp, h);
      FitsLater(states[i].up, sp, h);
      FitsLater(states[i].d.down, sp, h);
      StepStays(states[i - 1], steps[i - 1], times[i - 1], sp, h);
    }
  }

  /** The answer to a question about the space: its game, as soon as the dispatcher knows of it. */
  lemma Answer(s: System, src: GameId, now: Time, sp: EntityId, h: GameId)
    requires Inv(s) && SpaceAt(s, sp, h) && Enabled(s, DispatcherReceive(src)) && src in s.tables
    requires s.up[src][0].QuerySpace? && s.up[src][0].space == sp
    ensures
      var answer := QuerySpace(s.up[src][0].eid, sp, if sp in s.d.edis then h else 0);
      Do(s, DispatcherReceive(src), now).d.down == s.d.down[src := s.d.down[src] + [answer]]
  {
    KnownPlace(s, sp, h);
  }

  /** Once NOTIFY_CREATE of the space was handled, the dispatcher knows of it. */
  lemma KnownOnceTold(s: System, src: GameId, now: Time, sp: EntityId)
    requires WellFormed(s) && Enabled(s, DispatcherReceive(src)) && s.up[src][0] == NotifyCreate(sp)
    ensures sp in Do(s, DispatcherReceive(src), now).d.edis
  {
  }

  lemma KnownForGood(s: System, step: Step, now: Time, sp: EntityId)
    requires WellFormed(s) && Enabled(s, step) && sp in s.d.edis
    ensures sp in Do(s, step, now).d.edis
  {
    if step.DispatcherReceive? {
      DispatcherAppends(s.d, step.src, s.up[step.src][0], now);
    }
    hide DispatcherHandle, GameHandle;
  }

  /** The dispatcher only adds to channels and entries. */
  lemma DispatcherAppends(d: Dispatcher, src: GameId, m: Msg, now: Time)
    ensures
      var d' := DispatcherHandle(d, src, m, now);
      && d.edis.Keys <= d'.edis.Keys && d'.down.Keys == d.down.Keys
      && forall g | g in d.down :: d.down[g] <= d'.down[g]
  {
    var c := m.eid;
    match m
    case RealMigrate(_, to, _) =>
      var d1 := ForWrite(d, c);
      var d2 := SetEdi(d1, c, d1.edis[c].(gameid := to));
      SendAppends(d2, to, [m]);
      UnblockAppends(SendToGame(d2, to, [m]), c);
      hide Unblock, SendToGame;
    case NotifyCreate(_) =>
      var d1 := ForWrite(d, c);
      UnblockAppends(SetEdi(d1, c, d1.edis[c].(gameid := src)), c);
    case _ =>
  }

  lemma SendAppends(d: Dispatcher, g: GameId, msgs: seq<Msg>)
    ensures
      var d' := SendToGame(d, g, msgs);
      d'.edis == d.edis && d'.down.Keys == d.down.Keys && forall k | k in d.down :: d.down[k] <= d'.down[k]
  {
  }

  lemma UnblockAppends(d: Dispatcher, e: EntityId)
    requires e in d.edis
    ensures
      var d' := Unblock(d, e);
      d'.edis.Keys == d.edis.Keys && d'.down.Keys == d.down.Keys && forall k | k in d.down :: d.down[k] <= d'.down[k]
  {
  }

  // ---------- The entity arrives ----------

  /** The entity is on its way to game `h`. */
  ghost predicate Travelling(s: System, e: EntityId, h: GameId)
  {
    h in s.tables && h in s.d.down &&
    ((exists src, i :: Rises(s, e, h, src, i)) || (exists i: nat :: CopyIn(s.d.down[h], i, e)))
  }

  ghost predicate Rises(s: System, e: EntityId, h: GameId, src: GameId, i: nat)
  {
    src in s.up && CopyIn(s.up[src], i, e) && s.up[src][i].gameid == h
  }

  /** An entity that leaves on an answer about the space is on its way to the space's game. */
  lemma LeavesForSpace(s: System, g: GameId, now: Time, e: EntityId, sp: EntityId, h: GameId)
    requires Inv(s) && Directed(s, sp, h) && Enabled(s, GameReceive(g))
    requires s.d.down[g][0].MigrateRequest? && s.d.down[g][0].eid == e && s.d.down[g][0].space == sp
    requires e in s.tables[g] && e !in Do(s, GameReceive(g), now).tables[g]
    ensures sp in s.born && Travelling(Do(s, GameReceive(g), now), e, h)
  {
    var m := s.d.down[g][0];
    assert Fits(m, sp, HomeOf(s, sp, h));
    var s' := Do(s, GameReceive(g), now);
    var i := |s.up[g]|;
    assert s'.up[g] == s.up[g] + [RealMigrate(e, h, s.tables[g][e].data)];
    assert Rises(s', e, h, g, i);
  }

  lemma Shifted(ch: seq<Msg>, i: nat, e: EntityId)
    requires CopyIn(ch, i, e) && i > 0
    ensures CopyIn(ch[1..], i - 1, e) && ch[1..][i - 1] == ch[i]
  {
  }

  /** A packet that is not taken off a channel stays there. */
  lemma StillRises(up: map<GameId, seq<Msg>>, s': System, e: EntityId, h: GameId, src: GameId, i: nat)
    requires src in up && CopyIn(up[src], i, e) && up[src][i].gameid == h
    requires src in s'.up && up[src] <= s'.up[src] && h in s'.tables && h in s'.d.down
    ensures Travelling(s', e, h)
  {
    assert Rises(s', e, h, src, i);
  }

  /** The dispatcher sends the packet on to the game it names. */
  lemma Relayed(d: Dispatcher, src: GameId, m: Msg, now: Time)
    requires m.RealMigrate? && m.gameid in d.down
    ensures
      var d' := DispatcherHandle(d, src, m, now);
      m.gameid in d'.down && CopyIn(d'.down[m.gameid], |d.down[m.gameid]|, m.eid)
  {
    var c, to := m.eid, m.gameid;
    var d1 := ForWrite(d, c);
    var d2 := SetEdi(d1, c, d1.edis[c].(gameid := to));
    var d3 := SendToGame(d2, to, [m]);
    assert CopyIn(d3.down[to], |d.down[to]|, c);
    UnblockAppends(d3, c);
    hide Unblock;
  }

  /** Every step brings it closer, leaves it where it is, or puts it into the table of that game. */
  lemma StepTravels(s: System, step: Step, now: Time, e: EntityId, h: GameId)
    requires WellFormed(s) && Enabled(s, step) && Travelling(s, e, h)
    ensures Travelling(Do(s, step, now), e, h) || (h in Do(s, step, now).tables && e in Do(s, step, now).tables[h])
  {
    var s' := Do(s, step, now);
    if exists src, i :: Rises(s, e, h, src, i) {
      var src, i :| Rises(s, e, h, src, i);
      RisingTravels(s, step, now, e, h, src, i);
    } else {
      var i: nat :| CopyIn(s.d.down[h], i, e);
      FallingTravels(s, step, now, e, h, i);
    }
  }

  lemma RisingTravels(s: System, step: Step, now: Time, e: EntityId, h: GameId, src: GameId, i: nat)
    requires WellFormed(s) && Enabled(s, step) && h in s.tables && Rises(s, e, h, src, i)
    ensures Travelling(Do(s, step, now), e, h)
  {
    var s' := Do(s, step, now);
    if step == DispatcherReceive(src) {
      var m := s.up[src][0];
      DispatcherAppends(s.d, src, m, now);
      if i == 0 {
        Relayed(s.d, src, m, now);
        hide DispatcherHandle;
        assert CopyIn(s'.d.down[h], |s.d.down[h]|, e);
      } else {
        hide DispatcherHandle;
        Shifted(s.up[src], i, e);
        assert Rises(s', e, h, src, i - 1);
      }
    } else {
      if step.DispatcherReceive? {
        DispatcherAppends(s.d, step.src, s.up[step.src][0], now);
      }
      hide DispatcherHandle, GameHandle, EnterSpace, FinishEnterSpace;
      StillRises(s.up, s', e, h, src, i);
    }
  }

  lemma FallingTravels(s: System, step: Step, now: Time, e: EntityId, h: GameId, i: nat)
    requires WellFormed(s) && Enabled(s, step) && h in s.tables && CopyIn(s.d.down[h], i, e)
    ensures Travelling(Do(s, step, now), e, h) || (h in Do(s, step, now).tables && e in Do(s, step, now).tables[h])
  {
    var s' := Do(s, step, now);
    if step == GameReceive(h) {
      if i == 0 {
        assert e in s'.tables[h];
      } else {
        hide GameHandle;
        Shifted(s.d.down[h], i, e);
        assert CopyIn(s'.d.down[h], i - 1, e);
      }
    } else {
      if step.DispatcherReceive? {
        DispatcherAppends(s.d, step.src, s.up[step.src][0], now);
      }
      hide DispatcherHandle, GameHandle, EnterSpace, FinishEnterSpace;
      assert CopyIn(s'.d.down[h], i, e);
    }
  }

  /** The entity has left and is in no table yet. */
  ghost predicate Away(states: seq<System>, i: nat, j: nat, e: EntityId)
    requires j <= |states|
  {
    forall k, g | i < k < j && g in states[k].tables :: e !in states[k].tables[g]
  }

  lemma RunStep(states: seq<System>, steps: seq<Step>, times: seq<Time>, k: nat)
    requires Run(states, steps, times) && k + 1 < |states|
    ensures |states| == |steps| + 1 == |times| + 1
    ensures WellFormed(states[k]) && Enabled(states[k], steps[k]) && states[k + 1] == Do(states[k], steps[k], times[k])
  {
  }

  /** Over a run: from its departure on the entity is on its way, until it is in the table of that game. */
  lemma {:induction false} TravelsUntilThere(states: seq<System>, steps: seq<Step>, times: seq<Time>, i: nat, j: nat, e: EntityId, h: GameId)
    requires Run(states, steps, times) && i < j < |states| && Travelling(states[i + 1], e, h) && Away(states, i, j, e)
    ensures Travelling(states[j], e, h) || (h in states[j].tables && e in states[j].tables[h])
    decreases j
  {
    hide Travelling, Run, Do, Enabled, WellFormed;
    if j > i + 1 {
      TravelsUntilThere(states, steps, times, i, j - 1, e, h);
      RunStep(states, steps, times, j - 1);
      StepTravels(states[j - 1], steps[j - 1], times[j - 1], e, h);
    }
  }

  /** An entity on its way is in no table. */
  lemma NotInTables(s: System, e: EntityId, h: GameId, g: GameId)
    requires Inv(s) && g in s.tables && e in s.tables[g]
    ensures !Travelling(s, e, h)
    ensures h in s.tables && e in s.tables[h] ==> g == h
  {
    BornWhenHeld(s, e, g);
    ExactlyOneCopy(s, e);
    var p :| OnlyCopy(s, e, p);
    assert HasCopy(s, e, InTable(g));
    if Travelling(s, e, h) {
      if exists src, i :: Rises(s, e, h, src, i) {
        var src, i :| Rises(s, e, h, src, i);
        assert HasCopy(s, e, GoingUp(src, i));
      } else {
        var i: nat :| CopyIn(s.d.down[h], i, e);
        assert HasCopy(s, e, GoingDown(h, i));
      }
    }
    assert h in s.tables && e in s.tables[h] ==> HasCopy(s, e, InTable(h));
  }

  lemma BornWhenHeld(s: System, e: EntityId, g: GameId)
    requires Inv(s) && g in s.tables && e in s.tables[g]
    ensures e in s.born
  {
    assert HasPhase(ViewOf(s, e), e, s.tables.Keys);
    var ph :| InPhase(ViewOf(s, e), e, s.tables.Keys, ph);
    assert g in ViewOf(s, e).held;
  }

  /**
    Migration goes where it should, over every timely run: an entity that leaves a game on an answer
    about a space that stays is on its way until it arrives, and where it arrives the space is.
  */
  lemma ArrivesAtSpace(states: seq<System>, steps: seq<Step>, times: seq<Time>, i: nat, j: nat,
                       e: EntityId, g: GameId, sp: EntityId, h: GameId)
    requires Run(states, steps, times) && Stays(steps, sp, h) && i < j < |states| && Away(states, i, j, e)
    requires steps[i] == GameReceive(g) && g in states[i].tables && g in states[i].d.down && states[i].d.down[g] != []
    requires states[i].d.down[g][0].MigrateRequest? && states[i].d.down[g][0].eid == e && states[i].d.down[g][0].space == sp
    requires e in states[i].tables[g] && g in states[i + 1].tables && e !in states[i + 1].tables[g]
    ensures Travelling(states[j], e, h) || (h in states[j].tables && e in states[j].tables[h])
    ensures forall k | k in states[j].tables && e in states[j].tables[k] :: k == h && sp in states[j].tables[k]
  {
    RunDirected(states, steps, times, i, sp, h);
    RunDirected(states, steps, times, j, sp, h);
    assert states[i + 1] == Do(states[i], steps[i], times[i]) && Enabled(states[i], steps[i]);
    LeavesForSpace(states[i], g, times[i], e, sp, h);
    BornForGood(states, steps, times, i, j, sp);
    TravelsUntilThere(states, steps, times, i, j, e, h);
    hide Travelling, Run, Inv, Do;
    forall k | k in states[j].tables && e in states[j].tables[k]
      ensures k == h && sp in states[j].tables[k]
    {
      NotInTables(states[j], e, h, k);
    }
  }

  lemma {:induction false} BornForGood(states: seq<System>, steps: seq<Step>, times: seq<Time>, i: nat, j: nat, e: EntityId)
    requires Run(states, steps, times) && i <= j < |states| && e in states[i].born
    ensures e in states[j].born
    decreases j
  {
    if i < j {
      BornForGood(states, steps, times, i, j - 1, e);
      assert states[j - 1 + 1] == Do(states[j - 1], steps[j - 1], times[j - 1]);
    }
  }

  /** A call that the dispatcher receives is taken in, unless 1000 are waiting for a blocked entity. */
  lemma CallIsTakenIn(s: System, src: GameId, now: Time)
    requires WellFormed(s) && Enabled(s, DispatcherReceive(src)) && s.up[src][0].Call? && s.up[src][0].eid in s.d.edis
    requires var edi := s.d.edis[s.up[src][0].eid]; edi.blockUntil == 0 || (now < edi.blockUntil && |edi.queue| < 1000)
    ensures
      var m := s.up[src][0];
      History(Do(s, DispatcherReceive(src), now).d.accepted, m.eid) == History(s.d.accepted, m.eid) + [m.id]
  {
  }

  // ---------- A migration that completes ----------

  /** Steps from state to state. */
  ghost predicate Path(states: seq<System>, steps: seq<Step>, times: seq<Time>)
  {
    && |states| == |steps| + 1 == |times| + 1
    && forall i | 0 <= i < |steps| ::
         WellFormed(states[i]) && Enabled(states[i], steps[i]) && states[i + 1] == Do(states[i], steps[i], times[i])
  }

  /** The first `k` steps of a script lead from `s` to `last`. */
  ghost predicate Along(s: System, script: seq<Step>, k: nat, states: seq<System>, last: System, now: Time)
  {
    && k <= |script| && |states| == k + 1 && states[0] == s && states[k] == last
    && Path(states, script[..k], seq(k, i => now))
  }

  lemma AlongNone(s: System, script: seq<Step>, now: Time)
    ensures Along(s, script, 0, [s], s, now)
  {
  }

  lemma AlongMore(s: System, script: seq<Step>, k: nat, states: seq<System>, last: System, now: Time) returns (states': seq<System>, last': System)
    requires Along(s, script, k, states, last, now) && k < |script| && WellFormed(last) && Enabled(last, script[k])
    ensures last' == Do(last, script[k], now) && Along(s, script, k + 1, states', last', now)
  {
    hide Enabled, WellFormed, Do;
    last' := Do(last, script[k], now);
    states' := states + [last'];
    var steps, steps' := script[..k], script[..k + 1];
    forall i | 0 <= i < k + 1
      ensures WellFormed(states'[i]) && Enabled(states'[i], steps'[i]) && states'[i + 1] == Do(states'[i], steps'[i], now)
    {
      assert i < k ==> states'[i] == states[i] && states'[i + 1] == states[i + 1] && steps'[i] == steps[i];
    }
  }

  /** A game, the game of a space, and a source of calls. */
  datatype Cast = Cast(e: EntityId, g: GameId, sp: EntityId, h: GameId, src: GameId)

  /** The channels between them, the entity at each of the games, and its entry. */
  datatype Scene = Scene(
    upG: seq<Msg>, upSrc: seq<Msg>, downG: seq<Msg>, downH: seq<Msg>,
    atG: Option<Entity>, atH: Option<Entity>, edi: Edi)

  ghost predicate Shows(s: System, c: Cast, scene: Scene)
  {
    && WellFormed(s) && c.g in s.tables && c.h in s.tables && c.g != c.h && c.h != 0 && c.src in s.up && c.src != c.g
    && s.up[c.g] == scene.upG && s.up[c.src] == scene.upSrc && s.d.down[c.g] == scene.downG && s.d.down[c.h] == scene.downH
    && scene.atG == (if c.e in s.tables[c.g] then Some(s.tables[c.g][c.e]) else None)
    && scene.atH == (if c.e in s.tables[c.h] then Some(s.tables[c.h][c.e]) else None)
    && c.e in s.d.edis && s.d.edis[c.e] == scene.edi
    && c.e != c.sp && c.sp in s.d.edis && s.d.edis[c.sp].gameid == c.h
  }

  /** The request goes up. */
  lemma Act1(s: System, c: Cast, data: seq<CallId>, now: Time)
    requires Shows(s, c, Scene([], [], [], [], Some(Entity(data, 0, 0, false)), None, Edi(c.g, 0, []))) && now >= ENTER_SPACE_REQUEST_TIMEOUT
    ensures WellFormed(s) && Enabled(s, StartEnterSpace(c.g, c.e, c.sp, false))
    ensures Shows(Do(s, StartEnterSpace(c.g, c.e, c.sp, false), now), c,
                  Scene([QuerySpace(c.e, c.sp, 0)], [], [], [], Some(Entity(data, c.sp, now, false)), None, Edi(c.g, 0, [])))
  {
  }

  /** It is answered. */
  lemma Act2(s: System, c: Cast, x: Entity, now: Time)
    requires Shows(s, c, Scene([QuerySpace(c.e, c.sp, 0)], [], [], [], Some(x), None, Edi(c.g, 0, [])))
    ensures WellFormed(s) && Enabled(s, DispatcherReceive(c.g))
    ensures Shows(Do(s, DispatcherReceive(c.g), now), c,
                  Scene([], [], [QuerySpace(c.e, c.sp, c.h)], [], Some(x), None, Edi(c.g, 0, [])))
  {
  }

  lemma Act3(s: System, c: Cast, x: Entity, now: Time)
    requires Shows(s, c, Scene([], [], [QuerySpace(c.e, c.sp, c.h)], [], Some(x), None, Edi(c.g, 0, [])))
    requires IsEnteringSpace(x, now) && x.space == c.sp
    ensures WellFormed(s) && Enabled(s, GameReceive(c.g))
    ensures Shows(Do(s, GameReceive(c.g), now), c,
                  Scene([MigrateRequest(c.e, c.sp, c.h)], [], [], [], Some(x.(requestIsSent := true)), None, Edi(c.g, 0, [])))
  {
  }

  /** The dispatcher blocks the entity. */
  lemma Act4(s: System, c: Cast, x: Entity, now: Time)
    requires Shows(s, c, Scene([MigrateRequest(c.e, c.sp, c.h)], [], [], [], Some(x), None, Edi(c.g, 0, [])))
    ensures WellFormed(s) && Enabled(s, DispatcherReceive(c.g))
    ensures Shows(Do(s, DispatcherReceive(c.g), now), c,
                  Scene([], [], [MigrateRequest(c.e, c.sp, c.h)], [], Some(x), None, Edi(c.g, now + DISPATCHER_MIGRATE_TIMEOUT, [])))
  {
  }

  /** A call is made, and waits. */
  lemma Act5(s: System, c: Cast, x: Entity, id: CallId, until: Time, now: Time)
    requires Shows(s, c, Scene([], [], [MigrateRequest(c.e, c.sp, c.h)], [], Some(x), None, Edi(c.g, until, [])))
    ensures WellFormed(s) && Enabled(s, SendCall(c.src, c.e, id))
    ensures Shows(Do(s, SendCall(c.src, c.e, id), now), c,
                  Scene([], [Call(c.e, id)], [MigrateRequest(c.e, c.sp, c.h)], [], Some(x), None, Edi(c.g, until, [])))
  {
  }

  lemma Act6(s: System, c: Cast, x: Entity, id: CallId, until: Time, now: Time)
    requires Shows(s, c, Scene([], [Call(c.e, id)], [MigrateRequest(c.e, c.sp, c.h)], [], Some(x), None, Edi(c.g, until, [])))
    requires 0 < until && now < until
    ensures WellFormed(s) && Enabled(s, DispatcherReceive(c.src))
    ensures Shows(Do(s, DispatcherReceive(c.src), now), c,
                  Scene([], [], [MigrateRequest(c.e, c.sp, c.h)], [], Some(x), None, Edi(c.g, until, [Call(c.e, id)])))
  {
  }

  /** The entity leaves. */
  lemma Act7(s: System, c: Cast, x: Entity, edi: Edi, now: Time)
    requires Shows(s, c, Scene([], [], [MigrateRequest(c.e, c.sp, c.h)], [], Some(x), None, edi))
    requires IsEnteringSpace(x, now) && x.space == c.sp
    ensures WellFormed(s) && Enabled(s, GameReceive(c.g))
    ensures Shows(Do(s, GameReceive(c.g), now), c, Scene([RealMigrate(c.e, c.h, x.data)], [], [], [], None, None, edi))
  {
  }

  lemma Act8(s: System, c: Cast, data: seq<CallId>, id: CallId, until: Time, now: Time)
    requires Shows(s, c, Scene([RealMigrate(c.e, c.h, data)], [], [], [], None, None, Edi(c.g, until, [Call(c.e, id)]))) && until > 0
    ensures WellFormed(s) && Enabled(s, DispatcherReceive(c.g))
    ensures Shows(Do(s, DispatcherReceive(c.g), now), c,
                  Scene([], [], [], [RealMigrate(c.e, c.h, data), Call(c.e, id)], None, None, Edi(c.h, 0, [])))
  {
  }

  /** It arrives, and the call is executed. */
  lemma Act9(s: System, c: Cast, data: seq<CallId>, id: CallId, now: Time)
    requires Shows(s, c, Scene([], [], [], [RealMigrate(c.e, c.h, data), Call(c.e, id)], None, None, Edi(c.h, 0, [])))
    ensures WellFormed(s) && Enabled(s, GameReceive(c.h))
    ensures Shows(Do(s, GameReceive(c.h), now), c,
                  Scene([], [], [], [Call(c.e, id)], None, Some(Entity(data, 0, 0, false)), Edi(c.h, 0, [])))
  {
  }

  lemma Act10(s: System, c: Cast, x: Entity, id: CallId, now: Time)
    requires Shows(s, c, Scene([], [], [], [Call(c.e, id)], None, Some(x), Edi(c.h, 0, [])))
    ensures WellFormed(s) && Enabled(s, GameReceive(c.h))
    ensures Shows(Do(s, GameReceive(c.h), now), c,
                  Scene([], [], [], [], None, Some(x.(data := x.data + [id])), Edi(c.h, 0, [])))
  {
  }

  /** A request, its answer, the block, a call meanwhile, and the way to the other game. */
  function Script(c: Cast, id: CallId): seq<Step>
  {
    [StartEnterSpace(c.g, c.e, c.sp, false), DispatcherReceive(c.g), GameReceive(c.g), DispatcherReceive(c.g),
     SendCall(c.src, c.e, id), DispatcherReceive(c.src), GameReceive(c.g), DispatcherReceive(c.g),
     GameReceive(c.h), GameReceive(c.h)]
  }

  /**
    In a quiet system an entity that asks to enter a space of another game gets there, and a call
    that is made while it is between the games is executed there.
  */
  lemma MigrationCompletes(s: System, c: Cast, data: seq<CallId>, id: CallId, now: Time) returns (states: seq<System>)
    requires Shows(s, c, Scene([], [], [], [], Some(Entity(data, 0, 0, false)), None, Edi(c.g, 0, []))) && now >= ENTER_SPACE_REQUEST_TIMEOUT
    ensures Path(states, Script(c, id), seq(10, i => now)) && states[0] == s
    ensures Shows(states[10], c, Scene([], [], [], [], None, Some(Entity(data + [id], 0, 0, false)), Edi(c.h, 0, [])))
  {
    hide Shows, Enabled, WellFormed, Do, Path, Along, Script;
    AlongNone(s, Script(c, id), now);
    var last;
    states, last := Ask(s, c, data, id, now, [s], s);
    states, last := CallMeanwhile(s, c, data, id, now, states, last);
    states, last := Go(s, c, data, id, now, states, last);
    ScriptLength(c, id);
    AlongAll(s, Script(c, id), 10, states, last, now);
  }

  /** The request has been made and answered, and the entity is blocked. */
  lemma Ask(s: System, c: Cast, data: seq<CallId>, id: CallId, now: Time, states: seq<System>, last: System)
    returns (states': seq<System>, last': System)
    requires Along(s, Script(c, id), 0, states, last, now) && now >= ENTER_SPACE_REQUEST_TIMEOUT
    requires Shows(last, c, Scene([], [], [], [], Some(Entity(data, 0, 0, false)), None, Edi(c.g, 0, [])))
    ensures Along(s, Script(c, id), 4, states', last', now)
    ensures Shows(last', c, Scene([], [], [MigrateRequest(c.e, c.sp, c.h)], [], Some(Entity(data, c.sp, now, true)), None,
                                  Edi(c.g, now + DISPATCHER_MIGRATE_TIMEOUT, [])))
  {
    hide Shows, Enabled, WellFormed, Do, Path, Along;
    var x, script := Entity(data, c.sp, now, false), Script(c, id);
    Act1(last, c, data, now);
    states', last' := AlongMore(s, script, 0, states, last, now);
    Act2(last', c, x, now);
    states', last' := AlongMore(s, script, 1, states', last', now);
    Act3(last', c, x, now);
    states', last' := AlongMore(s, script, 2, states', last', now);
    Act4(last', c, x.(requestIsSent := true), now);
    states', last' := AlongMore(s, script, 3, states', last', now);
  }

  lemma CallMeanwhile(s: System, c: Cast, data: seq<CallId>, id: CallId, now: Time, states: seq<System>, last: System)
    returns (states': seq<System>, last': System)
    requires Along(s, Script(c, id), 4, states, last, now)
    requires Shows(last, c, Scene([], [], [MigrateRequest(c.e, c.sp, c.h)], [], Some(Entity(data, c.sp, now, true)), None,
                                  Edi(c.g, now + DISPATCHER_MIGRATE_TIMEOUT, [])))
    ensures Along(s, Script(c, id), 6, states', last', now)
    ensures Shows(last', c, Scene([], [], [MigrateRequest(c.e, c.sp, c.h)], [], Some(Entity(data, c.sp, now, true)), None,
                                  Edi(c.g, now + DISPATCHER_MIGRATE_TIMEOUT, [Call(c.e, id)])))
  {
    hide Shows, Enabled, WellFormed, Do, Path, Along;
    var x, script, until := Entity(data, c.sp, now, true), Script(c, id), now + DISPATCHER_MIGRATE_TIMEOUT;
    Act5(last, c, x, id, until, now);
    states', last' := AlongMore(s, script, 4, states, last, now);
    Act6(last', c, x, id, until, now);
    states', last' := AlongMore(s, script, 5, states', last', now);
  }

  /** The entity leaves, arrives, and executes the call. */
  lemma Go(s: System, c: Cast, data: seq<CallId>, id: CallId, now: Time, states: seq<System>, last: System)
    returns (states': seq<System>, last': System)
    requires Along(s, Script(c, id), 6, states, last, now)
    requires Shows(last, c, Scene([], [], [MigrateRequest(c.e, c.sp, c.h)], [], Some(Entity(data, c.sp, now, true)), None,
                                  Edi(c.g, now + DISPATCHER_MIGRATE_TIMEOUT, [Call(c.e, id)])))
    ensures Along(s, Script(c, id), 10, states', last', now)
    ensures Shows(last', c, Scene([], [], [], [], None, Some(Entity(data + [id], 0, 0, false)), Edi(c.h, 0, [])))
  {
    hide Shows, Enabled, WellFormed, Do, Path, Along;
    var x, script, until := Entity(data, c.sp, now, true), Script(c, id), now + DISPATCHER_MIGRATE_TIMEOUT;
    Act7(last, c, x, Edi(c.g, until, [Call(c.e, id)]), now);
    states', last' := AlongMore(s, script, 6, states, last, now);
    Act8(last', c, data, id, until, now);
    states', last' := AlongMore(s, script, 7, states', last', now);
    Act9(last', c, data, id, now);
    states', last' := AlongMore(s, script, 8, states', last', now);
    Act10(last', c, Entity(data, 0, 0, false), id, now);
    states', last' := AlongMore(s, script, 9, states', last', now);
  }

  lemma ScriptLength(c: Cast, id: CallId)
    ensures |Script(c, id)| == 10
  {
  }

  lemma AlongAll(s: System, script: seq<Step>, k: nat, states: seq<System>, last: System, now: Time)
    requires Along(s, script, k, states, last, now) && k == |script|
    ensures |states| == k + 1 && states[0] == s && states[k] == last && Path(states, script, seq(k, i => now))
  {
    assert script[..k] == script;
  }
}
