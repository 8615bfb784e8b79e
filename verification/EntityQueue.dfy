/**
  The queue of one entity at the dispatcher (entityDispatchInfo): what becomes of every packet
  over any sequence of blocks, packets, unblocks and moves, time-outs included.
*/
module EntityQueue {
  import opened Migration

  /** An entry and the packets it handed on to dispatchPacketToGame, with the game each was for. */
  datatype State = State(edi: Edi, handed: seq<(GameId, Msg)>)

  datatype Event =
    | BlockRPC(duration: Time)
    | Packet(msg: Msg)
    | Unblock
    | Move(gameid: GameId)

  function Addressed(g: GameId, msgs: seq<Msg>): seq<(GameId, Msg)>
  {
    seq(|msgs|, i requires 0 <= i < |msgs| => (g, msgs[i]))
  }

  function Released(s: State): State
  {
    if s.edi.blockUntil == 0 then s
    else State(Edi(s.edi.gameid, 0, []), s.handed + Addressed(s.edi.gameid, s.edi.queue))
  }

  /** One operation of entityDispatchInfo at time `now`. */
  function Handle(s: State, event: Event, now: Time): State
  {
    match event
    case BlockRPC(duration) =>
      if s.edi.blockUntil < now + duration then s.(edi := s.edi.(blockUntil := now + duration)) else s
    case Packet(msg) =>
      if s.edi.blockUntil == 0 then s.(handed := s.handed + [(s.edi.gameid, msg)])
      else if now < s.edi.blockUntil then
        if |s.edi.queue| < ENTITY_PENDING_PACKET_QUEUE_MAX_LEN then s.(edi := s.edi.(queue := s.edi.queue + [msg])) else s
      else Released(s)
    case Unblock => Released(s)
    case Move(gameid) => s.(edi := s.edi.(gameid := gameid))
  }

  /** What becomes of an arriving packet: kept, refused by a full queue, or lost to an expired block. */
  datatype Fate = Kept | Refused | Lost

  function FateOf(s: State, now: Time): Fate
  {
    if s.edi.blockUntil == 0 then Kept
    else if now >= s.edi.blockUntil then Lost
    else if |s.edi.queue| < ENTITY_PENDING_PACKET_QUEUE_MAX_LEN then Kept else Refused
  }

  /** A sequence of operations, each with its time. */
  type Events = seq<(Event, Time)>

  function After(s: State, events: Events): State
  {
    if |events| == 0 then s else
    var n := |events| - 1;
    Handle(After(s, events[..n]), events[n].0, events[n].1)
  }

  /** The packets with the given fate, in the order they arrived. */
  function Arrivals(s: State, events: Events, fate: Fate): seq<Msg>
  {
    if |events| == 0 then [] else
    var n := |events| - 1;
    Arrivals(s, events[..n], fate) +
      if events[n].0.Packet? && FateOf(After(s, events[..n]), events[n].1) == fate then [events[n].0.msg] else []
  }

  function Messages(handed: seq<(GameId, Msg)>): seq<Msg>
  {
    seq(|handed|, i requires 0 <= i < |handed| => handed[i].1)
  }

  /** The number of times the entry went from not blocked to blocked. */
  function Blocks(s: State, events: Events): nat
  {
    if |events| == 0 then 0 else
    var n := |events| - 1;
    Blocks(s, events[..n]) +
      if After(s, events[..n]).edi.blockUntil == 0 && After(s, events).edi.blockUntil != 0 then 1 else 0
  }

  const Fresh := State(Edi(0, 0, []), [])

  function Contents(events: Events): seq<Msg>
    requires forall i | 0 <= i < |events| :: events[i].0.Packet?
  {
    seq(|events|, i requires 0 <= i < |events| => events[i].0.msg)
  }

  /** During a block up to 1000 packets wait, all of them and in order. */
  lemma {:induction false} ThousandWait(s: State, events: Events)
    requires forall i | 0 <= i < |events| :: events[i].0.Packet? && events[i].1 < s.edi.blockUntil
    requires |s.edi.queue| + |events| <= 1000
    ensures After(s, events) == s.(edi := s.edi.(queue := s.edi.queue + Contents(events)))
  {
    if |events| > 0 {
      var n := |events| - 1;
      ThousandWait(s, events[..n]);
      assert Contents(events) == Contents(events[..n]) + [events[n].0.msg];
    } else {
      assert s.edi.queue + [] == s.edi.queue;
    }
  }

  /** No more do. */
  lemma MoreIsRefused(s: State, msg: Msg, now: Time)
    requires now < s.edi.blockUntil && |s.edi.queue| >= 1000
    ensures Handle(s, Packet(msg), now) == s && FateOf(s, now) == Refused
  {
  }

  /** An entry that is not blocked queues nothing, and no queue exceeds the limit. */
  lemma {:induction false} QueueInvariant(events: Events)
    ensures
      var edi := After(Fresh, events).edi;
      (edi.blockUntil == 0 ==> edi.queue == []) && |edi.queue| <= ENTITY_PENDING_PACKET_QUEUE_MAX_LEN
  {
    if |events| > 0 {
      QueueInvariant(events[..|events| - 1]);
    }
  }

  /**
    Over any run, the packets handed on followed by those still queued are exactly the kept
    arrivals, in order and without duplicates.
  */
  lemma {:induction false} NothingElseIsLost(events: Events)
    ensures
      var s := After(Fresh, events);
      Messages(s.handed) + s.edi.queue == Arrivals(Fresh, events, Kept)
  {
    if |events| > 0 {
      var n := |events| - 1;
      NothingElseIsLost(events[..n]);
      QueueInvariant(events[..n]);
      var s0, s := After(Fresh, events[..n]), After(Fresh, events);
      assert Messages(s0.handed + Addressed(s0.edi.gameid, s0.edi.queue)) == Messages(s0.handed) + s0.edi.queue;
      if events[n].0.Packet? {
        var msg := events[n].0.msg;
        assert Messages(s0.handed + [(s0.edi.gameid, msg)]) == Messages(s0.handed) + [msg];
        assert Messages(s0.handed) + (s0.edi.queue + [msg]) == Messages(s0.handed) + s0.edi.queue + [msg];
      }
    }
  }

  /** Each block loses at most one packet: the one that finds it expired ends it. */
  lemma {:induction false} OneLostPerBlock(events: Events)
    ensures
      var s := After(Fresh, events);
      |Arrivals(Fresh, events, Lost)| + (if s.edi.blockUntil != 0 then 1 else 0) <= Blocks(Fresh, events)
  {
    if |events| > 0 {
      OneLostPerBlock(events[..|events| - 1]);
    }
  }

  /** A run that loses a packet: blocked until 11, a packet queued at 2, and another one at 11. */
  lemma ExpiredBlockLoses(first: Msg, second: Msg)
    ensures
      var events: Events := [(BlockRPC(10), 1), (Packet(first), 2), (Packet(second), 11)];
      && Arrivals(Fresh, events, Lost) == [second]
      && After(Fresh, events) == State(Edi(0, 0, []), [(0, first)])
  {
    var events: Events := [(BlockRPC(10), 1), (Packet(first), 2), (Packet(second), 11)];
    var none: Events := [];
    assert events[..1][..0] == none && events[..2][..1] == events[..1];
    assert After(Fresh, events[..1]) == State(Edi(0, 11, []), []);
    assert After(Fresh, events[..2]) == State(Edi(0, 11, [first]), []);
    assert Arrivals(Fresh, events[..1], Lost) == [] == Arrivals(Fresh, events[..2], Lost);
  }

  /** The deadline of a block only grows until the entry is unblocked. */
  lemma DeadlineGrows(s: State, event: Event, now: Time)
    ensures
      var s' := Handle(s, event, now);
      s'.edi.blockUntil == 0 || s'.edi.blockUntil >= s.edi.blockUntil
  {
  }

  /** An unblock or an expired block hands on the whole queue, to the game the entity is at by then. */
  lemma ReleaseGoesHome(s: State, event: Event, now: Time, i: nat)
    requires s.edi.blockUntil != 0 && Handle(s, event, now).edi.blockUntil == 0 && i < |s.edi.queue|
    ensures
      var handed := Handle(s, event, now).handed;
      |handed| == |s.handed| + |s.edi.queue| && s.handed <= handed
      && handed[|s.handed| + i] == (s.edi.gameid, s.edi.queue[i])
  {
  }
}
