/**
 The hub: at most one listener per recipient on a node, each with a bounded channel. The
 listeners of any run of register, unregister, notify, receive and close see no gaps.
 */
module Hub {
  import opened Prelude
  import opened Types

  /** What a listener can be given: a message, a numbered receipt, or the notice that it is over. */
  datatype Event = Pushed(m: Message) | Receipted(n: nat, r: Receipt) | Gone

  datatype Notified = Delivered | Dropped | Absent

  /** A channel: what is buffered, and whether the receiving half still exists. */
  datatype Channel = Channel(buffer: seq<Event>, open: bool)

  /** Registration ids by recipient, and the channel of every registration so far. */
  datatype HubState = HubState(slots: map<Recipient, nat>, channels: map<nat, Channel>)

  /** `try_send`. */
  function Sent(c: Channel, e: Event, capacity: nat): Channel {
    if c.open && |c.buffer| < capacity then c.(buffer := c.buffer + [e]) else c
  }

  /** The slot of `to` has a channel. */
  predicate Listening(s: HubState, to: Recipient) {
    to in s.slots && s.slots[to] in s.channels
  }

  /** `register`: the previous listener is told it is gone, if it has room, and loses its sender. */
  function Registered(s: HubState, to: Recipient, id: nat, capacity: nat): HubState {
    var told :=
      if Listening(s, to) then s.channels[s.slots[to] := Sent(s.channels[s.slots[to]], Gone, capacity)]
      else s.channels;
    HubState(s.slots[to := id], told[id := Channel([], true)])
  }

  function Unregistered(s: HubState, to: Recipient, id: nat): HubState {
    if to in s.slots && s.slots[to] == id then s.(slots := s.slots - {to}) else s
  }

  function Outcome(s: HubState, to: Recipient, capacity: nat): Notified {
    if !Listening(s, to) || !s.channels[s.slots[to]].open then Absent
    else if |s.channels[s.slots[to]].buffer| < capacity then Delivered
    else Dropped
  }

  /** `notify`: a listener that fell behind or went away loses its slot. */
  function AfterNotify(s: HubState, to: Recipient, e: Event, capacity: nat): HubState {
    if Outcome(s, to, capacity).Delivered?
    then s.(channels := s.channels[s.slots[to] := Sent(s.channels[s.slots[to]], e, capacity)])
    else s.(slots := s.slots - {to})
  }

  /** The receiver takes the oldest buffered event. */
  function Taken(s: HubState, id: nat): HubState {
    if id in s.channels && |s.channels[id].buffer| > 0
    then s.(channels := s.channels[id := s.channels[id].(buffer := s.channels[id].buffer[1..])]) else s
  }

  /** The receiver goes away, and with it what was buffered. */
  function Closed(s: HubState, id: nat): HubState {
    if id in s.channels then s.(channels := s.channels[id := Channel([], false)]) else s
  }

  class Hub {
    var slots: map<Recipient, nat>
    var nextId: nat
    const capacity: nat
    var channels: map<nat, Channel>

    function Snapshot(): HubState
      reads this
    {
      HubState(slots, channels)
    }

    /** Every slot has its channel, and ids not yet given out are unused. */
    ghost predicate Valid()
      reads this
    {
      (forall to :: to in slots ==> slots[to] in channels)
      && forall id :: id in channels ==> id < nextId
    }

    constructor (capacity: nat)
      ensures Valid() && Snapshot() == HubState(map[], map[]) && this.capacity == capacity
    {
      slots, nextId, this.capacity, channels := map[], 0, capacity, map[];
    }

    method TrySend(id: nat, e: Event) returns (sent: bool)
      requires Valid() && id in channels
      modifies `channels
      ensures Valid() && slots == old(slots) && channels == old(channels)[id := Sent(old(channels)[id], e, capacity)]
      ensures sent <==> old(channels)[id].open && |old(channels)[id].buffer| < capacity
    {
      var c := channels[id];
      sent := c.open && |c.buffer| < capacity;
      if sent {
        c := c.(buffer := c.buffer + [e]);
      }
      channels := channels[id := c];
    }

    method Register(to: Recipient) returns (id: nat)
      requires Valid()
      modifies this
      ensures Valid() && id !in old(channels) && Snapshot() == Registered(old(Snapshot()), to, id, capacity)
      ensures slots == old(slots)[to := id] && channels.Keys == old(channels).Keys + {id}
      ensures channels[id].open && channels[id].buffer == []
      ensures forall j :: j in old(channels) ==>
        channels[j].open == old(channels)[j].open
        && channels[j].buffer == old(channels)[j].buffer
             + (if to in old(slots) && old(slots)[to] == j && old(channels)[j].open
                   && |old(channels)[j].buffer| < capacity then [Gone] else [])
    {
      id := nextId;
      nextId := nextId + 1;
      var before := if to in slots then Some(slots[to]) else None;
      if before.Some? {
        var told := TrySend(before.value, Gone);
      }
      channels := channels[id := Channel([], true)];
      slots := slots[to := id];
    }

    method Unregister(to: Recipient, id: nat) returns (mine: bool)
      requires Valid()
      modifies `slots
      ensures Valid() && Snapshot() == Unregistered(old(Snapshot()), to, id)
      ensures mine <==> to in old(slots) && old(slots)[to] == id
      ensures slots == if mine then old(slots) - {to} else old(slots)
    {
      mine := to in slots && slots[to] == id;
      if mine {
        slots := slots - {to};
      }
    }

    method Notify(to: Recipient, e: Event) returns (r: Notified)
      requires Valid()
      modifies `slots, `channels
      ensures Valid() && r == Outcome(old(Snapshot()), to, capacity)
      ensures Snapshot() == AfterNotify(old(Snapshot()), to, e, capacity)
      ensures r.Absent? <==> to !in old(slots) || !old(channels)[old(slots)[to]].open
      ensures r.Dropped? ==> |old(channels)[old(slots)[to]].buffer| >= capacity
      ensures r.Delivered? ==>
        var id := old(slots)[to];
        |old(channels)[id].buffer| < capacity && slots == old(slots)
        && channels == old(channels)[id := Channel(old(channels)[id].buffer + [e], true)]
      ensures !r.Delivered? ==> slots == old(slots) - {to} && channels == old(channels)
    {
      if to !in slots {
        assert slots - {to} == slots;
        return Absent;
      }
      if !channels[slots[to]].open {
        slots := slots - {to};
        return Absent;
      }
      var sent := TrySend(slots[to], e);
      if sent {
        return Delivered;
      }
      assert channels == old(channels);
      slots := slots - {to};
      r := Dropped;
    }
  }

  // -- Runs -----------------------------------------------------------------

  /**
   What one registration saw: the events addressed to its recipient since it registered, how
   many of them were buffered for it, whether it was told of its replacement, and what it received.
   */
  datatype Log = Log(to: Recipient, addressed: seq<Event>, kept: nat, told: bool, received: seq<Event>)

  datatype World = World(hub: HubState, logs: map<nat, Log>)

  datatype Move =
    | Registers(to: Recipient, id: nat)
    | Unregisters(to: Recipient, id: nat)
    | Notifies(to: Recipient, e: Event)
    | Takes(id: nat)
    | Closes(id: nat)

  function Holds(s: HubState, to: Recipient, id: nat): bool {
    to in s.slots && s.slots[to] == id
  }

  function LogNotify(w: World, to: Recipient, e: Event, capacity: nat): map<nat, Log> {
    map id | id in w.logs ::
      var log := w.logs[id];
      if log.to != to then log
      else log.(addressed := log.addressed + [e],
                kept := if Outcome(w.hub, to, capacity).Delivered? && Holds(w.hub, to, id)
                        then log.kept + 1 else log.kept)
  }

  function LogRegister(w: World, to: Recipient, id: nat, capacity: nat): map<nat, Log> {
    var told := map j | j in w.logs ::
      w.logs[j].(told := w.logs[j].told
                         || (Holds(w.hub, to, j) && j in w.hub.channels && w.hub.channels[j].open
                             && |w.hub.channels[j].buffer| < capacity));
    told[id := Log(to, [], 0, false, [])]
  }

  ghost predicate Moves(w: World, m: Move, w': World, capacity: nat) {
    match m
    case Registers(to, id) =>
      id !in w.hub.channels && id !in w.logs
      && w' == World(Registered(w.hub, to, id, capacity), LogRegister(w, to, id, capacity))
    case Unregisters(to, id) => w' == w.(hub := Unregistered(w.hub, to, id))
    case Notifies(to, e) => w' == World(AfterNotify(w.hub, to, e, capacity), LogNotify(w, to, e, capacity))
    case Takes(id) =>
      id in w.hub.channels && id in w.logs && |w.hub.channels[id].buffer| > 0
      && w' == World(Taken(w.hub, id),
                     w.logs[id := w.logs[id].(received := w.logs[id].received + [w.hub.channels[id].buffer[0]])])
    case Closes(id) => w' == w.(hub := Closed(w.hub, id))
  }

  ghost predicate Next(w: World, w': World, capacity: nat) {
    exists m :: Moves(w, m, w', capacity)
  }

  ghost predicate IsRun(run: seq<World>, capacity: nat) {
    |run| > 0 && run[0] == World(HubState(map[], map[]), map[])
    && forall i :: 0 <= i < |run| - 1 ==> Next(run[i], run[i + 1], capacity)
  }

  /**
   What the registration should receive: the buffered part of what was addressed to it, then perhaps
   its replacement notice.
   */
  function Expected(log: Log): seq<Event>
    requires log.kept <= |log.addressed|
  {
    log.addressed[..log.kept] + (if log.told then [Gone] else [])
  }

  ghost predicate LogFits(s: HubState, id: nat, log: Log, capacity: nat)
    requires id in s.channels
  {
    log.kept <= |log.addressed|
    && |s.channels[id].buffer| <= capacity
    && (s.channels[id].open ==> log.received + s.channels[id].buffer == Expected(log))
    && (!s.channels[id].open ==> s.channels[id].buffer == [] && log.received <= Expected(log))
    && (Holds(s, log.to, id) ==> log.kept == |log.addressed| && !log.told)
  }

  ghost predicate Inv(w: World, capacity: nat) {
    w.hub.channels.Keys == w.logs.Keys
    && (forall to :: to in w.hub.slots ==> w.hub.slots[to] in w.logs && w.logs[w.hub.slots[to]].to == to)
    && forall id :: id in w.logs ==> LogFits(w.hub, id, w.logs[id], capacity)
  }

  lemma OneMore(received: seq<Event>, buffer: seq<Event>, e: Event)
    ensures received + (buffer + [e]) == received + buffer + [e]
  {
  }

  /** A listener that is told of its replacement. */
  lemma ToldFits(w: World, to: Recipient, id: nat, j: nat, w': World, capacity: nat)
    requires Inv(w, capacity) && Moves(w, Registers(to, id), w', capacity) && j in w.logs && j != id
    ensures j in w'.hub.channels && LogFits(w'.hub, j, w'.logs[j], capacity)
  {
    var log, c := w.logs[j], w.hub.channels[j];
    assert LogFits(w.hub, j, log, capacity);
    if Holds(w.hub, to, j) {
      assert log.to == to;
      assert log.addressed[..log.kept] + [] == log.addressed[..log.kept];
      OneMore(log.received, c.buffer, Gone);
    } else {
      assert w'.hub.channels[j] == c;
    }
  }

  lemma RegisterKeepsInv(w: World, to: Recipient, id: nat, w': World, capacity: nat)
    requires Inv(w, capacity) && Moves(w, Registers(to, id), w', capacity)
    ensures Inv(w', capacity)
  {
    forall j | j in w'.logs ensures LogFits(w'.hub, j, w'.logs[j], capacity) {
      if j != id {
        ToldFits(w, to, id, j, w', capacity);
      }
    }
  }

  /** The listener that takes the event. */
  lemma DeliveredFits(w: World, to: Recipient, e: Event, w': World, capacity: nat)
    requires Inv(w, capacity) && Moves(w, Notifies(to, e), w', capacity) && Outcome(w.hub, to, capacity).Delivered?
    ensures w.hub.slots[to] in w'.logs && LogFits(w'.hub, w.hub.slots[to], w'.logs[w.hub.slots[to]], capacity)
  {
    var j := w.hub.slots[to];
    var log := w.logs[j];
    assert LogFits(w.hub, j, log, capacity);
    OneMore(log.received, w.hub.channels[j].buffer, e);
    assert log.addressed[..log.kept] + [] == log.addressed;
    assert (log.addressed + [e])[..log.kept + 1] + [] == log.addressed + [e];
  }

  /** A listener that does not take the event: what it is to receive is what it was. */
  lemma OtherFits(w: World, to: Recipient, e: Event, j: nat, w': World, capacity: nat)
    requires Inv(w, capacity) && Moves(w, Notifies(to, e), w', capacity) && j in w.logs
    requires !(Outcome(w.hub, to, capacity).Delivered? && Holds(w.hub, to, j))
    ensures LogFits(w'.hub, j, w'.logs[j], capacity)
  {
    var log := w.logs[j];
    assert LogFits(w.hub, j, log, capacity);
    assert (log.addressed + [e])[..log.kept] == log.addressed[..log.kept];
    assert w'.hub.channels[j] == w.hub.channels[j];
  }

  lemma NotifyKeepsInv(w: World, to: Recipient, e: Event, w': World, capacity: nat)
    requires Inv(w, capacity) && Moves(w, Notifies(to, e), w', capacity)
    ensures Inv(w', capacity)
  {
    hide LogFits;
    forall j | j in w'.logs ensures LogFits(w'.hub, j, w'.logs[j], capacity) {
      if Outcome(w.hub, to, capacity).Delivered? && Holds(w.hub, to, j) {
        DeliveredFits(w, to, e, w', capacity);
      } else {
        OtherFits(w, to, e, j, w', capacity);
      }
    }
  }

  lemma TakeKeepsInv(w: World, id: nat, w': World, capacity: nat)
    requires Inv(w, capacity) && Moves(w, Takes(id), w', capacity)
    ensures Inv(w', capacity)
  {
    forall j | j in w'.logs ensures LogFits(w'.hub, j, w'.logs[j], capacity) {
      assert LogFits(w.hub, j, w.logs[j], capacity);
      if j == id {
        var b := w.hub.channels[id].buffer;
        assert w.logs[id].received + b == (w.logs[id].received + [b[0]]) + b[1..];
      }
    }
  }

  lemma EndKeepsInv(w: World, m: Move, w': World, capacity: nat)
    requires Inv(w, capacity) && (m.Unregisters? || m.Closes?) && Moves(w, m, w', capacity)
    ensures Inv(w', capacity)
  {
    forall j | j in w'.logs ensures LogFits(w'.hub, j, w'.logs[j], capacity) {
      assert LogFits(w.hub, j, w.logs[j], capacity);
    }
  }

  lemma NextKeepsInv(w: World, w': World, capacity: nat)
    requires Inv(w, capacity) && Next(w, w', capacity)
    ensures Inv(w', capacity)
  {
    hide Inv, LogRegister, LogNotify, Registered, AfterNotify, Taken, Closed, Unregistered;
    var m :| Moves(w, m, w', capacity);
    match m {
      case Registers(to, id) => RegisterKeepsInv(w, to, id, w', capacity);
      case Notifies(to, e) => NotifyKeepsInv(w, to, e, w', capacity);
      case Takes(id) => TakeKeepsInv(w, id, w', capacity);
      case _ => EndKeepsInv(w, m, w', capacity);
    }
  }

  lemma {:induction false} RunsKeepInv(run: seq<World>, capacity: nat)
    requires IsRun(run, capacity)
    ensures Inv(run[|run| - 1], capacity)
    decreases |run|
  {
    hide Next;
    if |run| > 1 {
      var before := run[..|run| - 1];
      forall i | 0 <= i < |before| - 1 ensures Next(before[i], before[i + 1], capacity) {
        assert before[i] == run[i] && before[i + 1] == run[i + 1];
      }
      RunsKeepInv(before, capacity);
      NextKeepsInv(run[|run| - 2], run[|run| - 1], capacity);
    }
  }

  /**
   After any run, what a listener received is a prefix of the events addressed to it since it
   registered, followed by at most one replacement notice; while it is registered and
   listening, nothing addressed to it is missing from what it received or has buffered; and no
   buffer is over capacity.
   */
  lemma NoGaps(run: seq<World>, capacity: nat, id: nat)
    requires IsRun(run, capacity) && id in run[|run| - 1].logs
    ensures var w := run[|run| - 1];
            var log := w.logs[id];
            id in w.hub.channels && |w.hub.channels[id].buffer| <= capacity && log.kept <= |log.addressed|
            && log.received <= log.addressed[..log.kept] + (if log.told then [Gone] else [])
            && (Holds(w.hub, log.to, id) && w.hub.channels[id].open ==>
                  log.received + w.hub.channels[id].buffer == log.addressed)
  {
    RunsKeepInv(run, capacity);
    var w := run[|run| - 1];
    var log := w.logs[id];
    assert LogFits(w.hub, id, log, capacity);
    if w.hub.channels[id].open {
      assert log.received <= log.received + w.hub.channels[id].buffer;
    }
    if Holds(w.hub, log.to, id) {
      assert log.addressed[..log.kept] == log.addressed;
    }
  }

  // -- Replaced listeners ---------------------------------------------------

  /** A registration that lost its slot does not get it back, so it can never unregister its successor. */
  lemma LostStaysLost(w: World, w': World, capacity: nat, to: Recipient, id: nat)
    requires Inv(w, capacity) && Next(w, w', capacity) && id in w.logs && !Holds(w.hub, to, id)
    ensures id in w'.logs && !Holds(w'.hub, to, id)
    ensures Unregistered(w'.hub, to, id) == w'.hub
  {
    hide LogFits;
    var m :| Moves(w, m, w', capacity);
  }

  lemma {:induction false} ReplacedNeverReturns(run: seq<World>, capacity: nat, to: Recipient, id: nat, i: nat, j: nat)
    requires IsRun(run, capacity) && i <= j < |run| && id in run[i].logs && !Holds(run[i].hub, to, id)
    ensures id in run[j].logs && !Holds(run[j].hub, to, id)
    ensures Unregistered(run[j].hub, to, id) == run[j].hub
    decreases j
  {
    hide Inv, Next;
    if i < j {
      ReplacedNeverReturns(run, capacity, to, id, i, j - 1);
      PrefixKeepsInv(run, capacity, j - 1);
      LostStaysLost(run[j - 1], run[j], capacity, to, id);
    }
  }

  lemma PrefixKeepsInv(run: seq<World>, capacity: nat, n: nat)
    requires IsRun(run, capacity) && n < |run|
    ensures Inv(run[n], capacity)
  {
    hide Inv, Next;
    var front := run[..n + 1];
    forall i | 0 <= i < n ensures Next(front[i], front[i + 1], capacity) {
      assert front[i] == run[i] && front[i + 1] == run[i + 1];
    }
    RunsKeepInv(front, capacity);
  }
}
