/** The whole system as a single entity sees it, and how each update of the system shows there. */
module MigrationView {
  import opened Bytes
  import opened Migration

  // ---------- Channels as seen by one entity ----------

  /** The packets about `e`, in order. */
  function About(ch: seq<Msg>, e: EntityId): seq<Msg>
  {
    if |ch| == 0 then [] else (if ch[0].eid == e then [ch[0]] else []) + About(ch[1..], e)
  }

  /** The packets that are not calls, in order. */
  function Control(ch: seq<Msg>): seq<Msg>
  {
    if |ch| == 0 then [] else (if ch[0].Call? then [] else [ch[0]]) + Control(ch[1..])
  }

  /** The calls, in order. */
  function Calls(ch: seq<Msg>): seq<CallId>
  {
    if |ch| == 0 then [] else (if ch[0].Call? then [ch[0].id] else []) + Calls(ch[1..])
  }

  lemma {:induction false} AboutAppend(a: seq<Msg>, b: seq<Msg>, e: EntityId)
    ensures About(a + b, e) == About(a, e) + About(b, e)
  {
    if |a| == 0 {
      assert a + b == b;
    } else {
      AboutAppend(a[1..], b, e);
      assert (a + b)[0] == a[0] && (a + b)[1..] == a[1..] + b;
      var h := if a[0].eid == e then [a[0]] else [];
      assert h + (About(a[1..], e) + About(b, e)) == h + About(a[1..], e) + About(b, e);
    }
  }

  lemma {:induction false} ControlAppend(a: seq<Msg>, b: seq<Msg>)
    ensures Control(a + b) == Control(a) + Control(b)
  {
    if |a| == 0 {
      assert a + b == b;
    } else {
      ControlAppend(a[1..], b);
      assert (a + b)[0] == a[0] && (a + b)[1..] == a[1..] + b;
      var h := if a[0].Call? then [] else [a[0]];
      assert Control(a + b) == h + Control(a[1..] + b) && Control(a) == h + Control(a[1..]);
      assert h + (Control(a[1..]) + Control(b)) == h + Control(a[1..]) + Control(b);
    }
  }

  lemma {:induction false} CallsAppend(a: seq<Msg>, b: seq<Msg>)
    ensures Calls(a + b) == Calls(a) + Calls(b)
  {
    if |a| == 0 {
      assert a + b == b;
    } else {
      CallsAppend(a[1..], b);
      assert (a + b)[0] == a[0] && (a + b)[1..] == a[1..] + b;
      var h := if a[0].Call? then [a[0].id] else [];
      assert h + (Calls(a[1..]) + Calls(b)) == h + Calls(a[1..]) + Calls(b);
    }
  }

  /** Calls to `e` and nothing else. */
  ghost predicate OnlyCalls(q: seq<Msg>, e: EntityId)
  {
    forall i | 0 <= i < |q| :: q[i].Call? && q[i].eid == e
  }

  lemma {:induction false} OnlyCallsViews(q: seq<Msg>, e: EntityId)
    requires OnlyCalls(q, e)
    ensures About(q, e) == q && Control(q) == []
    ensures forall e' | e' != e :: About(q, e') == []
  {
    if |q| > 0 {
      OnlyCallsViews(q[1..], e);
    }
  }

  lemma {:induction false} NoControl(a: seq<Msg>, i: nat)
    requires Control(a) == [] && i < |a|
    ensures a[i].Call?
  {
    if i > 0 {
      NoControl(a[1..], i - 1);
    }
  }

  /** What appending `m` does to every view of a channel. */
  lemma Push(ch: seq<Msg>, m: Msg, e: EntityId)
    ensures About(ch + [m], e) == About(ch, e) + (if m.eid == e then [m] else [])
    ensures Control(About(ch + [m], e)) == Control(About(ch, e)) + (if m.eid == e && !m.Call? then [m] else [])
    ensures Calls(About(ch + [m], e)) == Calls(About(ch, e)) + (if m.eid == e && m.Call? then [m.id] else [])
  {
    AboutAppend(ch, [m], e);
    assert About([m], e) == if m.eid == e then [m] else [];
    if m.eid == e {
      ControlAppend(About(ch, e), [m]);
      CallsAppend(About(ch, e), [m]);
      assert Control([m]) == (if m.Call? then [] else [m]) && Calls([m]) == if m.Call? then [m.id] else [];
    } else {
      assert About(ch, e) + [] == About(ch, e);
    }
  }

  /** What taking the first packet does to every view of a channel. */
  lemma Pop(ch: seq<Msg>, e: EntityId)
    requires ch != []
    ensures ch[0].eid != e ==> About(ch[1..], e) == About(ch, e)
    ensures ch[0].eid == e ==> About(ch, e) == [ch[0]] + About(ch[1..], e)
    ensures ch[0].eid == e ==> Control(About(ch, e)) == (if ch[0].Call? then [] else [ch[0]]) + Control(About(ch[1..], e))
    ensures ch[0].eid == e ==> Calls(About(ch, e)) == (if ch[0].Call? then [ch[0].id] else []) + Calls(About(ch[1..], e))
  {
    if ch[0].eid == e {
      assert ([ch[0]] + About(ch[1..], e))[1..] == About(ch[1..], e);
    }
  }

  // ---------- Views ----------

  /** A map in which empty sequences are not stored. */
  function Put(m: map<GameId, seq<Msg>>, g: GameId, q: seq<Msg>): map<GameId, seq<Msg>>
  {
    if q == [] then m - {g} else m[g := q]
  }

  function Get(m: map<GameId, seq<Msg>>, g: GameId): seq<Msg>
  {
    if g in m then m[g] else []
  }

  /** The dispatcher as one entity sees it: `falling` holds the packets about it on their way down. */
  datatype DView = DView(edi: Option<Edi>, falling: map<GameId, seq<Msg>>, accepted: seq<CallId>)

  /** The system as one entity sees it: `rising` holds the requests about it on their way up. */
  datatype View = View(
    born: bool,
    held: map<GameId, Entity>,
    rising: map<GameId, seq<Msg>>,
    dv: DView,
    executed: seq<CallId>)

  ghost function Falling(down: map<GameId, seq<Msg>>, e: EntityId): map<GameId, seq<Msg>>
  {
    map g | g in down && About(down[g], e) != [] :: About(down[g], e)
  }

  ghost function ViewD(d: Dispatcher, e: EntityId): DView
  {
    DView(if e in d.edis then Some(d.edis[e]) else None,
          Falling(d.down, e),
          History(d.accepted, e))
  }

  ghost function Held(tables: map<GameId, map<EntityId, Entity>>, e: EntityId): map<GameId, Entity>
  {
    map g | g in tables && e in tables[g] :: tables[g][e]
  }

  ghost function Rising(up: map<GameId, seq<Msg>>, e: EntityId): map<GameId, seq<Msg>>
  {
    map g | g in up && Control(About(up[g], e)) != [] :: Control(About(up[g], e))
  }

  ghost function ViewOf(s: System, e: EntityId): View
  {
    View(e in s.born, Held(s.tables, e), Rising(s.up, e), ViewD(s.d, e), History(s.executed, e))
  }

  lemma RisingUpdate(up: map<GameId, seq<Msg>>, g: GameId, ch: seq<Msg>, e: EntityId)
    requires g in up
    ensures Rising(up[g := ch], e) == Put(Rising(up, e), g, Control(About(ch, e)))
    ensures Get(Rising(up, e), g) == Control(About(up[g], e))
  {
    hide About, Control;
  }

  lemma FallingUpdate(down: map<GameId, seq<Msg>>, g: GameId, ch: seq<Msg>, e: EntityId)
    requires g in down
    ensures Falling(down[g := ch], e) == Put(Falling(down, e), g, About(ch, e))
    ensures Get(Falling(down, e), g) == About(down[g], e)
  {
    hide About;
  }

  lemma SendView(d: Dispatcher, g: GameId, msgs: seq<Msg>, e: EntityId)
    requires g in d.down
    ensures ViewD(SendToGame(d, g, msgs), e)
         == ViewD(d, e).(falling := Put(ViewD(d, e).falling, g, Get(ViewD(d, e).falling, g) + About(msgs, e)))
  {
    FallingUpdate(d.down, g, d.down[g] + msgs, e);
    AboutAppend(d.down[g], msgs, e);
  }

  lemma PutGet(m: map<GameId, seq<Msg>>, g: GameId)
    requires g in m ==> m[g] != []
    ensures Put(m, g, Get(m, g)) == m && Put(m, g, Get(m, g) + []) == m
  {
    assert Get(m, g) + [] == Get(m, g);
  }

  /** A map with at most one channel in it. */
  lemma PutOne(at: GameId, p: seq<Msg>, q: seq<Msg>)
    ensures Get(Put(map[], at, p), at) == p
    ensures Put(Put(map[], at, p), at, q) == Put(map[], at, q)
    ensures Put(map[], at, []) == map[]
    ensures p + [] == p == [] + p
    ensures p != [] ==> Put(map[], at, p) == map[at := p]
  {
    assert Put(map[], at, []) == map[];
  }

  /** Sending packets about other entities does not show. */
  lemma SendOther(d: Dispatcher, g: GameId, msgs: seq<Msg>, e: EntityId)
    requires About(msgs, e) == []
    ensures ViewD(SendToGame(d, g, msgs), e) == ViewD(d, e)
    ensures SendToGame(d, g, msgs).down.Keys == d.down.Keys
  {
    if g in d.down {
      SendView(d, g, msgs, e);
      PutGet(ViewD(d, e).falling, g);
    }
  }

  lemma SetEdiView(d: Dispatcher, c: EntityId, edi: Edi, e: EntityId)
    ensures ViewD(SetEdi(d, c, edi), e) == if c == e then ViewD(d, e).(edi := Some(edi)) else ViewD(d, e)
  {
  }

  lemma AboutOne(m: Msg, e: EntityId)
    ensures About([m], e) == if m.eid == e then [m] else []
  {
  }

  /** What unblocking shows to the entity itself and to the others. */
  lemma UnblockView(d: Dispatcher, c: EntityId, e: EntityId)
    requires c in d.edis && OnlyCalls(d.edis[c].queue, c)
    requires d.edis[c].blockUntil != 0 ==> d.edis[c].gameid in d.down
    ensures Unblock(d, c).down.Keys == d.down.Keys
    ensures
      var v, edi := ViewD(d, e), d.edis[c];
      ViewD(Unblock(d, c), e) ==
        if c != e || edi.blockUntil == 0 then v
        else DView(Some(Edi(edi.gameid, 0, [])),
                   Put(v.falling, edi.gameid, Get(v.falling, edi.gameid) + edi.queue), v.accepted)
  {
    hide About, ViewD;
    var edi := d.edis[c];
    OnlyCallsViews(edi.queue, c);
    if edi.blockUntil != 0 {
      SetEdiView(d, c, Edi(edi.gameid, 0, []), e);
      var d1 := SetEdi(d, c, Edi(edi.gameid, 0, []));
      if c == e {
        SendView(d1, edi.gameid, edi.queue, e);
      } else {
        SendOther(d1, edi.gameid, edi.queue, e);
      }
    }
  }

  lemma RecordView(m: map<EntityId, seq<CallId>>, msg: Msg, e: EntityId)
    ensures History(Record(m, msg), e) == History(m, e) + if msg.Call? && msg.eid == e then [msg.id] else []
  {
  }

  /** What a game's handler shows: the entity's place in that game's table, and its packets. */
  lemma HeldAfter(tables: map<GameId, map<EntityId, Entity>>, g: GameId, table: map<EntityId, Entity>, e: EntityId)
    requires g in tables
    ensures Held(tables[g := table], e) ==
            if e in table then Held(tables, e)[g := table[e]] else Held(tables, e) - {g}
  {
  }

  lemma AtGameView(s: System, g: GameId, outcome: Outcome, e: EntityId)
    requires g in s.up && g in s.tables
    ensures
      var v := ViewOf(s, e);
      ViewOf(AtGame(s, g, outcome), e) ==
        v.(held := if e in outcome.table then v.held[g := outcome.table[e]] else v.held - {g},
           rising := Put(v.rising, g, Get(v.rising, g) + Control(About(outcome.sent, e))))
  {
    hide About, Control, ViewD;
    var s', v := AtGame(s, g, outcome), ViewOf(s, e);
    RisingUpdate(s.up, g, s.up[g] + outcome.sent, e);
    AboutAppend(s.up[g], outcome.sent, e);
    ControlAppend(About(s.up[g], e), About(outcome.sent, e));
    HeldAfter(s.tables, g, outcome.table, e);
    hide Held, Rising, Put, Get;
  }
}
