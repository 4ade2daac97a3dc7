/**
 Delivering items (push messages, queued receipts) to listeners: writers store first and
 notify second; listeners register first, set the route second and read storage third. Every
 interleaving of any number of writers, listeners, forwards and route cleanups is a run.
 */
module Delivery {
  import opened Prelude
  import opened Types
  import opened Hub

  /** An event for a recipient; `Gone` is the only one that is not stored. */
  datatype Item = Item(to: Recipient, e: Event)

  /** One node without a cluster, or a cluster with the roles of its nodes, which may overlap. */
  datatype Config =
    | Single(node: string, capacity: nat)
    | Clustered(connects: set<string>, endpoints: set<string>, capacity: nat)

  /** Sessions are held by `connect` nodes, receipt streams by `endpoint` nodes. */
  predicate ListensAt(c: Config, n: string, to: Recipient) {
    match c
    case Single(node, _) => n == node
    case Clustered(connects, endpoints, _) => if to.UserAgentAt? then n in connects else n in endpoints
  }

  /** Push messages are accepted by `endpoint` nodes; receipts come from either. */
  predicate PostsAt(c: Config, n: string, to: Recipient) {
    match c
    case Single(node, _) => n == node
    case Clustered(connects, endpoints, _) => n in endpoints || (to.ReceiptsOf? && n in connects)
  }

  /** Recipients whose listeners are never on a node where items for them are announced. */
  predicate Apart(c: Config, to: Recipient) {
    c.Clustered? && c.connects !! c.endpoints && to.UserAgentAt?
  }

  datatype Phase = Registering | Routed | Caught

  /** Why a listener may miss what is not in its backlog. */
  datatype Excuse = Replaced | Overflowed | Ended | RouteTaken | RouteCleared

  /**
   A registered listener: how far it has come, what had ever been stored and what was stored
   and what had been removed when it read its backlog, what its channel was given, and its excuses.
   */
  datatype Listener = Listener(
    to: Recipient, phase: Phase, before: set<Item>, backlog: set<Item>, gone: set<Item>,
    offered: seq<Event>, excuses: set<Excuse>)

  /** A listener by node and registration id. */
  type Place = (string, nat)

  /** A call or spawned job between two of its steps. */
  datatype Job =
    | Store(at: string, item: Item)
    | Announce(at: string, item: Item)
    | LookUp(at: string, item: Item)
    | Forward(item: Item, target: string)
    | Clear(to: Recipient, node: string)

  datatype World = World(
    hubs: map<string, HubState>,
    routes: map<Recipient, string>,
    stored: set<Item>,
    ever: set<Item>,
    removed: set<Item>,
    announced: set<Item>,
    failed: set<Item>,
    absorbed: set<Item>,
    listeners: map<Place, Listener>,
    jobs: map<nat, Job>)

  ghost predicate Initial(c: Config, w: World) {
    (forall n :: n in w.hubs ==> w.hubs[n] == HubState(map[], map[]))
    && w == World.World(w.hubs, map[], {}, {}, {}, {}, {}, {}, map[], map[])
  }

  // -- Parts of steps -------------------------------------------------------

  function Excused(l: Listener, why: Excuse): Listener {
    l.(excuses := l.excuses + {why})
  }

  /** `Hub::notify` on node `n`: what becomes of the listener in the slot. */
  function Heard(w: World, n: string, item: Item, capacity: nat): World
    requires n in w.hubs
  {
    var h := w.hubs[n];
    var listeners :=
      if item.to in h.slots && (n, h.slots[item.to]) in w.listeners then
        var p := (n, h.slots[item.to]);
        var l := w.listeners[p];
        w.listeners[p :=
          match Outcome(h, item.to, capacity)
          case Delivered => l.(offered := l.offered + [item.e])
          case Dropped => Excused(l, Overflowed)
          case Absent => Excused(l, Ended)]
      else w.listeners;
    w.(hubs := w.hubs[n := AfterNotify(h, item.to, item.e, capacity)], listeners := listeners)
  }

  function Drop(w: World, t: nat): World {
    w.(jobs := w.jobs - {t})
  }

  /** The announcement of `item` is over. */
  function Over(w: World, item: Item): World {
    if item.e.Gone? then w else w.(announced := w.announced + {item})
  }

  /** ... without the event having been handed on. */
  function Lost(w: World, item: Item): World {
    w.(failed := w.failed + {item})
  }

  /** The route of the recipient names another node than `at`. */
  predicate RoutedElsewhere(w: World, at: string, to: Recipient) {
    to in w.routes && w.routes[to] != at
  }

  /** The local slot took the event: if the route names another node, its listener there may not get it. */
  function Absorbed(w: World, at: string, item: Item): World {
    if RoutedElsewhere(w, at, item.to) then w.(absorbed := w.absorbed + {item}) else w
  }

  /** `clear_route`: a recipient routed elsewhere by now keeps its route. */
  function RouteGone(w: World, to: Recipient, node: string): World {
    if to in w.routes && w.routes[to] == node then
      w.(routes := w.routes - {to},
         listeners := map p | p in w.listeners ::
           if w.listeners[p].to == to && p.0 == node && !w.listeners[p].phase.Registering?
           then Excused(w.listeners[p], RouteCleared) else w.listeners[p])
    else w
  }

  /** `set_route` by listener `p`. */
  function RouteSet(w: World, p: Place): World
    requires p in w.listeners
  {
    var to := w.listeners[p].to;
    var others := map q | q in w.listeners ::
      if w.listeners[q].to == to && q.0 != p.0 && !w.listeners[q].phase.Registering?
      then Excused(w.listeners[q], RouteTaken) else w.listeners[q];
    w.(routes := w.routes[to := p.0], listeners := others[p := w.listeners[p].(phase := Routed)])
  }

  function CaughtUp(w: World, p: Place): World
    requires p in w.listeners
  {
    w.(listeners := w.listeners[p :=
         w.listeners[p].(phase := Caught, before := w.ever, backlog := w.stored, gone := w.removed)])
  }

  function Skipped(w: World, p: Place): World
    requires p in w.listeners
  {
    w.(listeners := w.listeners[p := w.listeners[p].(phase := Caught, before := {}, backlog := {}, gone := {})])
  }

  /** `Hub::register` on node `n`. */
  function Joined(w: World, n: string, to: Recipient, id: nat, capacity: nat): World
    requires n in w.hubs
  {
    var h := w.hubs[n];
    var listeners :=
      if to in h.slots && (n, h.slots[to]) in w.listeners
      then w.listeners[(n, h.slots[to]) := Excused(w.listeners[(n, h.slots[to])], Replaced)] else w.listeners;
    w.(hubs := w.hubs[n := Registered(h, to, id, capacity)],
       listeners := listeners[(n, id) := Listener(to, Registering, {}, {}, {}, [], {})])
  }

  /** `Listener::drop`, up to the cleanup it spawns. */
  function Left(w: World, p: Place): World
    requires p in w.listeners && p.0 in w.hubs
  {
    w.(hubs := w.hubs[p.0 := Closed(Unregistered(w.hubs[p.0], w.listeners[p].to, p.1), p.1)],
       listeners := w.listeners[p := Excused(w.listeners[p], Ended)])
  }

  // -- Moves ----------------------------------------------------------------

  datatype Move =
    | Post(t: nat, at: string, item: Item)
    | Send(t: nat, at: string, to: Recipient)
    | Go(t: nat)
    | Fail(t: nat)
    | Unreachable(t: nat)
    | Register(n: string, to: Recipient, id: nat)
    | SetRoute(p: Place, t: nat)
    | CatchUp(p: Place)
    /** A new user agent has no backlog to read. */
    | SkipBacklog(p: Place)
    | Take(p: Place)
    | End(p: Place, t: nat)
    | Remove(item: Item)

  /** The next step of a job: its effect, and the job it goes on as. */
  function Stepped(c: Config, w: World, job: Job): (World, Option<Job>) {
    match job
    case Store(at, item) =>
      (w.(stored := w.stored + {item}, ever := w.ever + {item}), Some(Announce(at, item)))
    case Announce(at, item) =>
      var heard := if at in w.hubs then Heard(w, at, item, c.capacity) else w;
      if at in w.hubs && !Outcome(w.hubs[at], item.to, c.capacity).Absent?
      then (Over(Absorbed(heard, at, item), item), None)
      else if c.Clustered? then (heard, Some(LookUp(at, item)))
      else (Over(heard, item), None)
    case LookUp(at, item) =>
      if item.to !in w.routes then (Over(w, item), None)
      else if w.routes[item.to] == at then (Over(w, item), Some(Clear(item.to, at)))
      else (w, Some(Forward(item, w.routes[item.to])))
    case Forward(item, target) =>
      if target !in w.hubs then (Lost(Over(w, item), item), Some(Clear(item.to, target)))
      else
        (Over(Heard(w, target, item, c.capacity), item),
         if Outcome(w.hubs[target], item.to, c.capacity).Absent? then Some(Clear(item.to, target)) else None)
    case Clear(to, node) => (RouteGone(w, to, node), None)
  }

  ghost predicate Moves(c: Config, w: World, m: Move, w': World) {
    match m
    case Post(t, at, item) =>
      t !in w.jobs && !item.e.Gone? && PostsAt(c, at, item.to)
      && w' == w.(jobs := w.jobs[t := Store(at, item)])
    case Send(t, at, to) =>
      t !in w.jobs && PostsAt(c, at, to) && w' == w.(jobs := w.jobs[t := Announce(at, Item(to, Gone))])
    case Go(t) =>
      t in w.jobs
      && var (w1, next) := Stepped(c, w, w.jobs[t]);
         w' == (if next.None? then Drop(w1, t) else w1.(jobs := w1.jobs[t := next.value]))
    case Fail(t) =>
      t in w.jobs && (w.jobs[t].LookUp? || w.jobs[t].Forward?)
      && w' == Drop(Lost(Over(w, w.jobs[t].item), w.jobs[t].item), t)
    case Unreachable(t) =>
      t in w.jobs && w.jobs[t].Forward?
      && var item := w.jobs[t].item;
         w' == Lost(Over(w, item), item).(jobs := w.jobs[t := Clear(item.to, w.jobs[t].target)])
    case Register(n, to, id) =>
      n in w.hubs && ListensAt(c, n, to) && id !in w.hubs[n].channels && (n, id) !in w.listeners
      && w' == Joined(w, n, to, id, c.capacity)
    case SetRoute(p, t) =>
      c.Clustered? && p in w.listeners && w.listeners[p].phase.Registering? && t !in w.jobs
      && var to := w.listeners[p].to;
         var w1 := RouteSet(w, p);
         w' == if to in w.routes && w.routes[to] != p.0
               then w1.(jobs := w.jobs[t := Forward(Item(to, Gone), w.routes[to])]) else w1
    case CatchUp(p) =>
      p in w.listeners && w.listeners[p].phase == (if c.Clustered? then Routed else Registering)
      && w' == CaughtUp(w, p)
    case SkipBacklog(p) =>
      p in w.listeners && w.listeners[p].phase == (if c.Clustered? then Routed else Registering)
      && (forall item :: item in w.ever ==> item.to != w.listeners[p].to)
      && w' == Skipped(w, p)
    case Take(p) =>
      p.0 in w.hubs && w' == w.(hubs := w.hubs[p.0 := Taken(w.hubs[p.0], p.1)])
    case End(p, t) =>
      p in w.listeners && p.0 in w.hubs && t !in w.jobs
      && var mine := Holds(w.hubs[p.0], w.listeners[p].to, p.1);
         var w1 := Left(w, p);
         w' == if mine && c.Clustered? then w1.(jobs := w.jobs[t := Clear(w.listeners[p].to, p.0)]) else w1
    case Remove(item) => w' == w.(stored := w.stored - {item}, removed := w.removed + {item})
  }

  ghost predicate Next(c: Config, w: World, w': World) {
    exists m :: Moves(c, w, m, w')
  }

  ghost predicate IsRun(c: Config, run: seq<World>) {
    |run| > 0 && Initial(c, run[0])
    && forall i :: 0 <= i < |run| - 1 ==> Next(c, run[i], run[i + 1])
  }

  // -- What holds throughout ------------------------------------------------

  /** Slots belong to listeners for that recipient, on nodes that may hold them. */
  ghost predicate SlotsKnown(c: Config, w: World) {
    forall n, to :: n in w.hubs && to in w.hubs[n].slots ==>
      ListensAt(c, n, to) && (n, w.hubs[n].slots[to]) in w.listeners && w.listeners[(n, w.hubs[n].slots[to])].to == to
  }

  /** A listener without an excuse still holds its slot. */
  ghost predicate Live(w: World, p: Place)
    requires p in w.listeners
  {
    p.0 in w.hubs && Holds(w.hubs[p.0], w.listeners[p].to, p.1)
    && p.1 in w.hubs[p.0].channels && w.hubs[p.0].channels[p.1].open
  }

  ghost predicate AllLive(w: World) {
    forall p :: p in w.listeners && w.listeners[p].excuses == {} ==> Live(w, p)
  }

  /** ... and, once it set the route, still has it. */
  ghost predicate RoutesHold(c: Config, w: World) {
    c.Clustered? ==>
      forall p :: p in w.listeners && w.listeners[p].excuses == {} && !w.listeners[p].phase.Registering? ==>
        w.listeners[p].to in w.routes && w.routes[w.listeners[p].to] == p.0
  }

  /** Listener `p` has read its backlog, has no excuse, and has not got `item`. */
  ghost predicate Missing(w: World, p: Place, item: Item) {
    p in w.listeners && w.listeners[p].to == item.to && w.listeners[p].phase.Caught?
    && w.listeners[p].excuses == {} && item !in w.listeners[p].before && item.e !in w.listeners[p].offered
  }

  /**
   A job past its store step carries a stored item; a lookup comes after the local slot, so whoever
   misses the item is elsewhere; a forward heads for whoever misses it.
   */
  ghost predicate JobFits(c: Config, w: World, job: Job) {
    match job
    case Store(at, item) => PostsAt(c, at, item.to) && !item.e.Gone?
    case Announce(at, item) => PostsAt(c, at, item.to) && (item in w.ever || item.e.Gone?)
    case LookUp(at, item) =>
      c.Clustered? && PostsAt(c, at, item.to) && (item in w.ever || item.e.Gone?)
      && (!item.e.Gone? ==> forall p :: Missing(w, p, item) ==> p.0 != at)
    case Forward(item, target) =>
      c.Clustered? && (item in w.ever || item.e.Gone?)
      && (!item.e.Gone? ==> forall p :: Missing(w, p, item) ==> p.0 == target)
    case Clear(_, _) => true
  }

  ghost predicate JobsFit(c: Config, w: World) {
    forall t :: t in w.jobs ==> JobFits(c, w, w.jobs[t])
  }

  /** Nobody misses an item whose announcement is over, did not fail and was not absorbed. */
  ghost predicate NoneMissed(c: Config, w: World) {
    w.announced <= w.ever
    && forall item, p :: item in w.announced && item !in w.failed && item !in w.absorbed ==> !Missing(w, p, item)
  }

  /** What was ever stored is stored or was removed, now and when each listener read its backlog. */
  ghost predicate Kept(w: World) {
    w.ever <= w.stored + w.removed
    && forall p :: p in w.listeners ==> w.listeners[p].before <= w.listeners[p].backlog + w.listeners[p].gone
  }

  ghost predicate Inv(c: Config, w: World) {
    SlotsKnown(c, w) && AllLive(w) && RoutesHold(c, w) && JobsFit(c, w) && NoneMissed(c, w) && Kept(w)
  }

  /** What concerns slots, routes and storage. */
  ghost predicate Base(c: Config, w: World) {
    SlotsKnown(c, w) && AllLive(w) && RoutesHold(c, w) && Kept(w)
  }

  // -- Listeners only move forward ------------------------------------------

  /** A listener keeps its excuses and what it got; it catches up once, with all that was ever stored. */
  ghost predicate Later(l: Listener, l': Listener, ever: set<Item>) {
    l'.to == l.to && l.excuses <= l'.excuses && (forall e :: e in l.offered ==> e in l'.offered)
    && (l'.phase.Caught? ==>
          (l.phase.Caught? && l'.before == l.before) || forall i :: i in ever && i.to == l.to ==> i in l'.before)
  }

  ghost predicate Grows(w: World, w': World) {
    w.ever <= w'.ever
    && forall p :: p in w'.listeners ==>
         if p in w.listeners then Later(w.listeners[p], w'.listeners[p], w.ever)
         else w'.listeners[p].phase.Registering?
  }

  /** An item once stored is missed by nobody new. */
  lemma MissingShrinks(w: World, w': World, p: Place, item: Item)
    requires Grows(w, w') && item in w.ever && Missing(w', p, item)
    ensures Missing(w, p, item)
  {
  }

  lemma JobStillFits(c: Config, w: World, w': World, job: Job)
    requires Grows(w, w') && JobFits(c, w, job)
    ensures JobFits(c, w', job)
  {
    hide Grows, Missing, PostsAt;
    if (job.Forward? || job.LookUp?) && !job.item.e.Gone? {
      forall p | Missing(w', p, job.item) ensures Missing(w, p, job.item) {
        MissingShrinks(w, w', p, job.item);
      }
    }
    assert w.ever <= w'.ever by { GrowsEver(w, w'); }
  }

  lemma GrowsEver(w: World, w': World)
    requires Grows(w, w')
    ensures w.ever <= w'.ever
  {
  }

  /** Steps that end no announcement leave nothing missed. */
  lemma StillNoneMissed(c: Config, w: World, w': World)
    requires Grows(w, w') && NoneMissed(c, w) && w'.announced == w.announced && w.failed <= w'.failed
             && w.absorbed <= w'.absorbed
    ensures NoneMissed(c, w')
  {
    hide Grows, Missing;
    GrowsEver(w, w');
    forall item, p | item in w'.announced && item !in w'.failed && item !in w'.absorbed ensures !Missing(w', p, item) {
      if Missing(w', p, item) {
        MissingShrinks(w, w', p, item);
      }
    }
  }

  /** An announcement may end when nobody misses its item, or when it failed. */
  lemma OverKeeps(c: Config, w: World, item: Item)
    requires NoneMissed(c, w) && (item in w.ever || item.e.Gone?)
    requires !item.e.Gone? && item !in w.failed && item !in w.absorbed ==> forall p :: !Missing(w, p, item)
    ensures NoneMissed(c, Over(w, item))
  {
    hide Missing;
    forall i, p ensures Missing(Over(w, item), p, i) == Missing(w, p, i) {
      MissingAlike(w, Over(w, item), p, i);
    }
  }

  lemma MissingAlike(w: World, w': World, p: Place, item: Item)
    requires w'.listeners == w.listeners
    ensures Missing(w', p, item) <==> Missing(w, p, item)
  {
  }

  // -- Parts of steps keep slots, routes and storage ------------------------

  lemma HeardLive(c: Config, w: World, n: string, item: Item)
    requires SlotsKnown(c, w) && AllLive(w) && n in w.hubs
    ensures AllLive(Heard(w, n, item, c.capacity))
  {
    hide ListensAt;
    var w' := Heard(w, n, item, c.capacity);
    forall q | q in w'.listeners && w'.listeners[q].excuses == {} ensures Live(w', q) {
      assert Live(w, q);
    }
  }

  lemma HeardSlots(c: Config, w: World, n: string, item: Item)
    requires SlotsKnown(c, w) && n in w.hubs
    ensures SlotsKnown(c, Heard(w, n, item, c.capacity))
  {
    hide ListensAt;
  }

  lemma HeardBase(c: Config, w: World, n: string, item: Item)
    requires Base(c, w) && n in w.hubs
    ensures Base(c, Heard(w, n, item, c.capacity)) && Grows(w, Heard(w, n, item, c.capacity))
  {
    hide SlotsKnown, AllLive, AfterNotify, Outcome;
    HeardLive(c, w, n, item);
    HeardSlots(c, w, n, item);
  }

  lemma RouteGoneBase(c: Config, w: World, to: Recipient, node: string)
    requires Base(c, w)
    ensures Base(c, RouteGone(w, to, node)) && Grows(w, RouteGone(w, to, node))
  {
    hide ListensAt;
    var w' := RouteGone(w, to, node);
    forall p | p in w'.listeners && w'.listeners[p].excuses == {} ensures Live(w', p) {
      assert Live(w, p);
    }
  }

  lemma RouteSetLive(w: World, p: Place)
    requires AllLive(w) && p in w.listeners
    ensures AllLive(RouteSet(w, p))
  {
    hide ListensAt;
    var w' := RouteSet(w, p);
    forall q | q in w'.listeners && w'.listeners[q].excuses == {} ensures Live(w', q) {
      assert Live(w, q);
    }
  }

  lemma RouteSetSlots(c: Config, w: World, p: Place)
    requires SlotsKnown(c, w) && p in w.listeners
    ensures SlotsKnown(c, RouteSet(w, p))
  {
    hide ListensAt;
  }

  /** Whoever had the recipient's route before is excused. */
  lemma RouteSetHolds(c: Config, w: World, p: Place)
    requires RoutesHold(c, w) && p in w.listeners
    ensures RoutesHold(c, RouteSet(w, p))
  {
  }

  lemma RouteSetBase(c: Config, w: World, p: Place)
    requires Base(c, w) && p in w.listeners && w.listeners[p].phase.Registering?
    ensures Base(c, RouteSet(w, p)) && Grows(w, RouteSet(w, p))
  {
    hide AllLive, SlotsKnown, RoutesHold;
    RouteSetLive(w, p);
    RouteSetSlots(c, w, p);
    RouteSetHolds(c, w, p);
  }

  lemma CaughtUpBase(c: Config, w: World, p: Place)
    requires Base(c, w) && p in w.listeners && !w.listeners[p].phase.Caught?
    requires c.Clustered? ==> w.listeners[p].phase.Routed?
    ensures Base(c, CaughtUp(w, p)) && Grows(w, CaughtUp(w, p))
  {
    hide ListensAt;
    var w' := CaughtUp(w, p);
    forall q | q in w'.listeners && w'.listeners[q].excuses == {} ensures Live(w', q) {
      assert Live(w, q);
    }
  }

  lemma SkippedBase(c: Config, w: World, p: Place)
    requires Base(c, w) && p in w.listeners && !w.listeners[p].phase.Caught?
    requires c.Clustered? ==> w.listeners[p].phase.Routed?
    requires forall item :: item in w.ever ==> item.to != w.listeners[p].to
    ensures Base(c, Skipped(w, p)) && Grows(w, Skipped(w, p))
  {
    hide ListensAt;
    var w' := Skipped(w, p);
    forall q | q in w'.listeners && w'.listeners[q].excuses == {} ensures Live(w', q) {
      assert Live(w, q);
    }
  }

  lemma JoinedSlots(c: Config, w: World, n: string, to: Recipient, id: nat)
    requires SlotsKnown(c, w) && n in w.hubs && ListensAt(c, n, to) && (n, id) !in w.listeners
    ensures SlotsKnown(c, Joined(w, n, to, id, c.capacity))
  {
    hide ListensAt;
  }

  /** The listener that had the slot is excused; the others keep theirs. */
  lemma JoinedLive(c: Config, w: World, n: string, to: Recipient, id: nat)
    requires AllLive(w) && SlotsKnown(c, w) && n in w.hubs && id !in w.hubs[n].channels && (n, id) !in w.listeners
    ensures AllLive(Joined(w, n, to, id, c.capacity))
  {
    hide ListensAt;
    var w' := Joined(w, n, to, id, c.capacity);
    forall q | q in w'.listeners && w'.listeners[q].excuses == {} && q != (n, id) ensures Live(w', q) {
      assert Live(w, q);
    }
    assert Live(w', (n, id));
  }

  lemma JoinedBase(c: Config, w: World, n: string, to: Recipient, id: nat)
    requires Base(c, w) && n in w.hubs && ListensAt(c, n, to)
    requires id !in w.hubs[n].channels && (n, id) !in w.listeners
    ensures Base(c, Joined(w, n, to, id, c.capacity)) && Grows(w, Joined(w, n, to, id, c.capacity))
  {
    hide ListensAt, SlotsKnown, AllLive, Registered;
    JoinedSlots(c, w, n, to, id);
    JoinedLive(c, w, n, to, id);
  }

  lemma LeftLive(c: Config, w: World, p: Place)
    requires SlotsKnown(c, w) && AllLive(w) && p in w.listeners && p.0 in w.hubs
    ensures AllLive(Left(w, p))
  {
    hide ListensAt;
    var w' := Left(w, p);
    forall q | q in w'.listeners && w'.listeners[q].excuses == {} ensures Live(w', q) {
      assert Live(w, q);
    }
  }

  lemma LeftSlots(c: Config, w: World, p: Place)
    requires SlotsKnown(c, w) && p in w.listeners && p.0 in w.hubs
    ensures SlotsKnown(c, Left(w, p))
  {
    hide ListensAt;
  }

  lemma LeftBase(c: Config, w: World, p: Place)
    requires Base(c, w) && p in w.listeners && p.0 in w.hubs
    ensures Base(c, Left(w, p)) && Grows(w, Left(w, p))
  {
    hide SlotsKnown, AllLive, Closed, Unregistered;
    LeftLive(c, w, p);
    LeftSlots(c, w, p);
  }

  lemma TakeBase(c: Config, w: World, p: Place)
    requires Base(c, w) && p.0 in w.hubs
    ensures var w' := w.(hubs := w.hubs[p.0 := Taken(w.hubs[p.0], p.1)]); Base(c, w') && Grows(w, w')
  {
    hide ListensAt;
    var w' := w.(hubs := w.hubs[p.0 := Taken(w.hubs[p.0], p.1)]);
    forall q | q in w'.listeners && w'.listeners[q].excuses == {} ensures Live(w', q) {
      assert Live(w, q);
    }
  }

  lemma StorageBase(c: Config, w: World, w': World)
    requires Base(c, w) && w' == w.(stored := w'.stored, ever := w'.ever, removed := w'.removed)
    requires w.ever <= w'.ever <= w'.stored + w'.removed
    ensures Base(c, w') && Grows(w, w')
  {
    hide ListensAt;
    forall q | q in w'.listeners && w'.listeners[q].excuses == {} ensures Live(w', q) {
      assert Live(w, q);
    }
  }

  // -- The steps of a job --------------------------------------------------

  /** Whoever misses an item listens in the local slot without a cluster, and where the route leads in one. */
  lemma MissingWhere(c: Config, w: World, at: string, item: Item, p: Place)
    requires Base(c, w) && PostsAt(c, at, item.to) && Missing(w, p, item)
    ensures p.0 in w.hubs && item.to in w.hubs[p.0].slots && w.hubs[p.0].slots[item.to] == p.1
    ensures !Outcome(w.hubs[p.0], item.to, c.capacity).Absent?
    ensures c.Single? ==> p.0 == at
    ensures c.Clustered? ==> item.to in w.routes && w.routes[item.to] == p.0
  {
    assert Live(w, p);
  }

  /** The slot's listener gets the event or an excuse. */
  lemma HeardServes(c: Config, w: World, n: string, item: Item, p: Place)
    requires Base(c, w) && n in w.hubs && p.0 == n && Holds(w.hubs[n], item.to, p.1) && p in w.listeners
    ensures !Missing(Heard(w, n, item, c.capacity), p, item)
  {
    hide SlotsKnown, AllLive, RoutesHold, Kept;
  }

  /** Who still misses the item after the local announcement, if anyone, is not on the announcing node. */
  lemma HeardLeaves(c: Config, w: World, at: string, item: Item, p: Place)
    requires Base(c, w) && PostsAt(c, at, item.to) && item in w.ever
    requires Missing(if at in w.hubs then Heard(w, at, item, c.capacity) else w, p, item)
    ensures c.Clustered? && p.0 != at && item.to in w.routes && w.routes[item.to] == p.0
  {
    hide SlotsKnown, AllLive, RoutesHold, Kept, Missing, PostsAt, Grows, Outcome, Holds;
    GrowsSelf(w);
    if at in w.hubs {
      HeardBase(c, w, at, item);
      MissingShrinks(w, Heard(w, at, item, c.capacity), p, item);
    }
    MissingWhere(c, w, at, item, p);
    HeldBy(w, p, item);
    if p.0 == at {
      HeardServes(c, w, at, item, p);
    }
  }

  lemma AnnounceKeeps(c: Config, w: World, at: string, item: Item)
    requires Inv(c, w) && JobFits(c, w, Announce(at, item))
    ensures Keeps(c, w, Announce(at, item))
  {
    hide SlotsKnown, AllLive, RoutesHold, Kept, Missing, PostsAt, Grows, NoneMissed, JobsFit, Outcome, Holds;
    var heard := if at in w.hubs then Heard(w, at, item, c.capacity) else w;
    GrowsSelf(w);
    if at in w.hubs {
      HeardBase(c, w, at, item);
    }
    StillNoneMissed(c, w, heard);
    GrowsEver(w, heard);
    if !item.e.Gone? {
      forall p | Missing(heard, p, item) ensures c.Clustered? && p.0 != at && RoutedElsewhere(w, at, item.to) {
        HeardLeaves(c, w, at, item, p);
      }
    }
    if at in w.hubs && !Outcome(w.hubs[at], item.to, c.capacity).Absent? {
      AbsorbedKeeps(c, w, heard, at, item);
    } else if c.Single? {
      GrowsOver(w, heard, item);
      OverApart(c, heard, item);
      OverKeeps(c, heard, item);
    }
  }

  /** An event that the local slot took has reached whoever misses it, or is absorbed. */
  lemma AbsorbedKeeps(c: Config, w: World, heard: World, at: string, item: Item)
    requires Base(c, heard) && Grows(w, heard) && NoneMissed(c, heard) && (item in heard.ever || item.e.Gone?)
    requires !item.e.Gone? && !RoutedElsewhere(heard, at, item.to) ==> forall p :: !Missing(heard, p, item)
    ensures var w1 := Over(Absorbed(heard, at, item), item); Base(c, w1) && Grows(w, w1) && NoneMissed(c, w1)
  {
    hide SlotsKnown, AllLive, RoutesHold, Kept, Missing, Grows, NoneMissed, Base;
    var mid := Absorbed(heard, at, item);
    BaseAlike(c, heard, mid);
    GrowsAlike(w, heard, mid);
    GrowsSelf(heard);
    GrowsAlike(heard, heard, mid);
    StillNoneMissed(c, heard, mid);
    forall p ensures Missing(mid, p, item) == Missing(heard, p, item) {
      MissingAlike(heard, mid, p, item);
    }
    GrowsOver(w, mid, item);
    OverApart(c, mid, item);
    OverKeeps(c, mid, item);
  }

  lemma GrowsAlike(w: World, w1: World, w': World)
    requires Grows(w, w1) && w'.ever == w1.ever && w'.listeners == w1.listeners
    ensures Grows(w, w')
  {
  }

  lemma HeldBy(w: World, p: Place, item: Item)
    requires Missing(w, p, item) && p.0 in w.hubs && item.to in w.hubs[p.0].slots && w.hubs[p.0].slots[item.to] == p.1
    ensures Holds(w.hubs[p.0], item.to, p.1) && p in w.listeners
  {
  }

  lemma GrowsSelf(w: World)
    ensures Grows(w, w)
  {
  }

  lemma GrowsOver(w: World, w1: World, item: Item)
    requires Grows(w, w1)
    ensures Grows(w, Over(w1, item)) && Grows(w, Lost(w1, item)) && Grows(w, Lost(Over(w1, item), item))
  {
  }

  /** The record of announcements is apart from slots, routes and storage. */
  lemma OverApart(c: Config, w: World, item: Item)
    requires Base(c, w)
    ensures Base(c, Over(w, item)) && Base(c, Lost(w, item)) && Base(c, Lost(Over(w, item), item))
  {
    hide Base;
    BaseAlike(c, w, Over(w, item));
    BaseAlike(c, w, Lost(w, item));
    BaseAlike(c, w, Lost(Over(w, item), item));
  }

  lemma BaseAlike(c: Config, w: World, w': World)
    requires Base(c, w) && w' == w.(announced := w'.announced, failed := w'.failed, absorbed := w'.absorbed,
                                    jobs := w'.jobs)
    ensures Base(c, w')
  {
    hide ListensAt;
    forall q | q in w'.listeners && w'.listeners[q].excuses == {} ensures Live(w', q) {
      assert Live(w, q);
    }
  }

  /** What one step of a job ensures. */
  ghost predicate Keeps(c: Config, w: World, job: Job) {
    var (w1, next) := Stepped(c, w, job);
    Base(c, w1) && Grows(w, w1) && NoneMissed(c, w1) && w1.jobs == w.jobs
    && (next.Some? ==> JobFits(c, w1, next.value))
  }

  lemma StoreKeeps(c: Config, w: World, at: string, item: Item)
    requires Inv(c, w) && JobFits(c, w, Store(at, item))
    ensures Keeps(c, w, Store(at, item))
  {
    hide Missing, PostsAt, Grows, NoneMissed, JobsFit;
    var w1 := Stepped(c, w, Store(at, item)).0;
    StorageBase(c, w, w1);
    StillNoneMissed(c, w, w1);
  }

  lemma LookUpKeeps(c: Config, w: World, at: string, item: Item)
    requires Inv(c, w) && JobFits(c, w, LookUp(at, item))
    ensures Keeps(c, w, LookUp(at, item))
  {
    hide SlotsKnown, AllLive, RoutesHold, Kept, Missing, PostsAt, Grows, NoneMissed, JobsFit;
    GrowsSelf(w);
    GrowsOver(w, w, item);
    OverApart(c, w, item);
    forall p | Missing(w, p, item) ensures item.to in w.routes && w.routes[item.to] == p.0 {
      MissingWhere(c, w, at, item, p);
    }
    if item.to !in w.routes || w.routes[item.to] == at {
      OverKeeps(c, w, item);
    }
  }

  lemma ForwardKeeps(c: Config, w: World, item: Item, target: string)
    requires Inv(c, w) && JobFits(c, w, Forward(item, target))
    ensures Keeps(c, w, Forward(item, target))
  {
    hide SlotsKnown, AllLive, RoutesHold, Kept, Missing, PostsAt, Grows, NoneMissed, Outcome, Holds;
    GrowsSelf(w);
    if target !in w.hubs {
      GrowsOver(w, w, item);
      OverApart(c, w, item);
      FailedKeeps(c, w, item);
    } else {
      var heard := Heard(w, target, item, c.capacity);
      HeardBase(c, w, target, item);
      GrowsEver(w, heard);
      GrowsOver(w, heard, item);
      OverApart(c, heard, item);
      StillNoneMissed(c, w, heard);
      if !item.e.Gone? {
        forall p ensures !Missing(heard, p, item) {
          if Missing(heard, p, item) {
            MissingShrinks(w, heard, p, item);
            MissingHolds(w, p, item);
            HeardServes(c, w, target, item, p);
          }
        }
      }
      OverKeeps(c, heard, item);
    }
  }

  lemma MissingHolds(w: World, p: Place, item: Item)
    requires AllLive(w) && Missing(w, p, item)
    ensures p in w.listeners && p.0 in w.hubs && Holds(w.hubs[p.0], item.to, p.1)
  {
    assert Live(w, p);
  }

  /** A failed announcement is excused. */
  lemma FailedKeeps(c: Config, w: World, item: Item)
    requires NoneMissed(c, w) && (item in w.ever || item.e.Gone?)
    ensures NoneMissed(c, Lost(Over(w, item), item))
  {
    hide Missing;
    var w' := Lost(Over(w, item), item);
    forall i, p ensures Missing(w', p, i) == Missing(w, p, i) {
      MissingAlike(w, w', p, i);
    }
  }

  lemma ClearKeeps(c: Config, w: World, to: Recipient, node: string)
    requires Inv(c, w)
    ensures Keeps(c, w, Clear(to, node))
  {
    hide SlotsKnown, AllLive, RoutesHold, Kept, Missing, Grows, NoneMissed;
    RouteGoneBase(c, w, to, node);
    StillNoneMissed(c, w, RouteGone(w, to, node));
  }

  lemma StepKeeps(c: Config, w: World, job: Job)
    requires Inv(c, w) && JobFits(c, w, job)
    ensures Keeps(c, w, job)
  {
    hide Inv, JobFits, Base, Grows, NoneMissed, Stepped;
    match job {
      case Store(at, item) => StoreKeeps(c, w, at, item);
      case Announce(at, item) => AnnounceKeeps(c, w, at, item);
      case LookUp(at, item) => LookUpKeeps(c, w, at, item);
      case Forward(item, target) => ForwardKeeps(c, w, item, target);
      case Clear(to, node) => ClearKeeps(c, w, to, node);
    }
  }

  // -- Moves keep it --------------------------------------------------------

  /** After a part of a step, the jobs that go on still fit. */
  lemma Finish(c: Config, w: World, w1: World, jobs: map<nat, Job>)
    requires Inv(c, w) && Base(c, w1) && Grows(w, w1) && NoneMissed(c, w1)
    requires forall t :: t in jobs ==> (t in w.jobs && jobs[t] == w.jobs[t]) || JobFits(c, w1, jobs[t])
    ensures Inv(c, w1.(jobs := jobs))
  {
    hide SlotsKnown, AllLive, RoutesHold, Kept, Missing, Grows, JobFits;
    var w' := w1.(jobs := jobs);
    BaseAlike(c, w1, w');
    forall t | t in jobs ensures JobFits(c, w', jobs[t]) {
      if t in w.jobs && jobs[t] == w.jobs[t] {
        JobStillFits(c, w, w1, jobs[t]);
      }
      FitsAlike(c, w1, w', jobs[t]);
    }
    forall i, p ensures Missing(w', p, i) == Missing(w1, p, i) {
      MissingAlike(w1, w', p, i);
    }
  }

  lemma FitsAlike(c: Config, w: World, w': World, job: Job)
    requires JobFits(c, w, job) && w' == w.(jobs := w'.jobs)
    ensures JobFits(c, w', job)
  {
    hide Missing, PostsAt;
    forall i, p ensures Missing(w', p, i) == Missing(w, p, i) {
      MissingAlike(w, w', p, i);
    }
  }

  lemma GoKeepsInv(c: Config, w: World, t: nat, w': World)
    requires Inv(c, w) && Moves(c, w, Go(t), w')
    ensures Inv(c, w')
  {
    hide SlotsKnown, AllLive, RoutesHold, Kept, Missing, Grows, JobFits, NoneMissed, Stepped, Base;
    StepKeeps(c, w, w.jobs[t]);
    var (w1, next) := Stepped(c, w, w.jobs[t]);
    Finish(c, w, w1, w'.jobs);
  }

  lemma FailKeepsInv(c: Config, w: World, m: Move, w': World)
    requires Inv(c, w) && (m.Fail? || m.Unreachable?) && Moves(c, w, m, w')
    ensures Inv(c, w')
  {
    hide SlotsKnown, AllLive, RoutesHold, Kept, Missing, Grows, NoneMissed, Base, PostsAt;
    var item := w.jobs[m.t].item;
    assert JobFits(c, w, w.jobs[m.t]);
    BaseSelf(c, w);
    GrowsSelf(w);
    GrowsOver(w, w, item);
    OverApart(c, w, item);
    FailedKeeps(c, w, item);
    Finish(c, w, Lost(Over(w, item), item), w'.jobs);
  }

  lemma BaseSelf(c: Config, w: World)
    requires Inv(c, w)
    ensures Base(c, w)
  {
  }

  /** Moves that end no announcement. */
  lemma QuietKeepsInv(c: Config, w: World, w1: World, w': World)
    requires Inv(c, w) && Base(c, w1) && Grows(w, w1)
    requires w1.announced == w.announced && w1.failed == w.failed && w1.absorbed == w.absorbed
    requires w' == w1.(jobs := w'.jobs)
    requires forall t :: t in w'.jobs ==>
      (t in w.jobs && w'.jobs[t] == w.jobs[t]) || JobFits(c, w1, w'.jobs[t])
    ensures Inv(c, w')
  {
    hide SlotsKnown, AllLive, RoutesHold, Kept, Missing, Grows, JobFits, Base, NoneMissed;
    StillNoneMissed(c, w, w1) by { InvNone(c, w); }
    Finish(c, w, w1, w'.jobs);
  }

  lemma InvNone(c: Config, w: World)
    requires Inv(c, w)
    ensures NoneMissed(c, w)
  {
  }

  lemma ListenerKeepsInv(c: Config, w: World, m: Move, w': World)
    requires Inv(c, w) && Moves(c, w, m, w')
    requires m.Register? || m.SetRoute? || m.CatchUp? || m.SkipBacklog? || m.Take? || m.End?
    ensures Inv(c, w')
  {
    hide Inv, Missing, Grows, Base, PostsAt, ListensAt, Joined, RouteSet, CaughtUp, Skipped, Left, Taken, Holds;
    BaseSelf(c, w);
    match m {
      case Register(n, to, id) =>
        JoinedBase(c, w, n, to, id);
        SameRecord(c, w, m);
        QuietKeepsInv(c, w, w', w');
      case SetRoute(p, t) =>
        RouteSetBase(c, w, p);
        SameRecord(c, w, m);
        QuietKeepsInv(c, w, RouteSet(w, p), w');
      case CatchUp(p) =>
        CaughtUpBase(c, w, p);
        SameRecord(c, w, m);
        QuietKeepsInv(c, w, w', w');
      case SkipBacklog(p) =>
        SkippedBase(c, w, p);
        SameRecord(c, w, m);
        QuietKeepsInv(c, w, w', w');
      case Take(p) =>
        TakeBase(c, w, p);
        QuietKeepsInv(c, w, w', w');
      case End(p, t) =>
        LeftBase(c, w, p);
        SameRecord(c, w, m);
        QuietKeepsInv(c, w, Left(w, p), w');
    }
  }

  /** Listeners' own steps leave storage, announcements and jobs alone. */
  lemma SameRecord(c: Config, w: World, m: Move)
    ensures m.Register? && m.n in w.hubs ==>
      Untouched(w, Joined(w, m.n, m.to, m.id, c.capacity))
    ensures m.SetRoute? && m.p in w.listeners ==> Untouched(w, RouteSet(w, m.p))
    ensures m.CatchUp? && m.p in w.listeners ==> Untouched(w, CaughtUp(w, m.p))
    ensures m.SkipBacklog? && m.p in w.listeners ==> Untouched(w, Skipped(w, m.p))
    ensures m.End? && m.p in w.listeners && m.p.0 in w.hubs ==> Untouched(w, Left(w, m.p))
  {
  }

  predicate Untouched(w: World, w': World) {
    w'.announced == w.announced && w'.failed == w.failed && w'.absorbed == w.absorbed && w'.jobs == w.jobs
  }

  lemma PostKeepsInv(c: Config, w: World, m: Move, w': World)
    requires Inv(c, w) && Moves(c, w, m, w') && (m.Post? || m.Send? || m.Remove?)
    ensures Inv(c, w')
  {
    hide SlotsKnown, AllLive, RoutesHold, Missing, Grows, Base, PostsAt, JobsFit, NoneMissed;
    BaseSelf(c, w);
    GrowsSelf(w);
    if m.Remove? {
      StorageBase(c, w, w');
      QuietKeepsInv(c, w, w', w');
    } else {
      QuietKeepsInv(c, w, w, w');
    }
  }

  lemma NextKeepsInv(c: Config, w: World, w': World)
    requires Inv(c, w) && Next(c, w, w')
    ensures Inv(c, w')
  {
    hide Inv, Moves;
    var m :| Moves(c, w, m, w');
    match m {
      case Go(t) => GoKeepsInv(c, w, t, w');
      case Fail(_) => FailKeepsInv(c, w, m, w');
      case Unreachable(_) => FailKeepsInv(c, w, m, w');
      case Post(_, _, _) => PostKeepsInv(c, w, m, w');
      case Send(_, _, _) => PostKeepsInv(c, w, m, w');
      case Remove(_) => PostKeepsInv(c, w, m, w');
      case _ => ListenerKeepsInv(c, w, m, w');
    }
  }

  lemma InitialInv(c: Config, w: World)
    requires Initial(c, w)
    ensures Inv(c, w)
  {
  }

  lemma {:induction false} RunsKeepInv(c: Config, run: seq<World>)
    requires IsRun(c, run)
    ensures Inv(c, run[|run| - 1])
    decreases |run|
  {
    hide Inv, Initial, Next;
    if |run| == 1 {
      InitialInv(c, run[0]);
    } else {
      var before := run[..|run| - 1];
      forall i | 0 <= i < |before| - 1 ensures Next(c, before[i], before[i + 1]) {
        assert before[i] == run[i] && before[i + 1] == run[i + 1];
      }
      RunsKeepInv(c, before);
      NextKeepsInv(c, run[|run| - 2], run[|run| - 1]);
    }
  }

  // -- The theorems ---------------------------------------------------------

  /**
   In every run, once an item is announced and a listener for its recipient has read its
   backlog, or had none to read, the item was stored at that read, or had been removed by then,
   or reached the listener's channel, unless the announcement failed or was absorbed by a slot on
   the announcing node while the route named another, or the listener has an excuse: it was
   replaced, overflowed or ended, or its route was taken or cleared after it was set. What had
   ever been stored before that read needs no excuse.
   */
  lemma NoMiss(c: Config, run: seq<World>, item: Item, p: Place)
    requires IsRun(c, run)
    requires var w := run[|run| - 1];
             p in w.listeners && w.listeners[p].to == item.to && w.listeners[p].phase.Caught?
    ensures var w, l := run[|run| - 1], run[|run| - 1].listeners[p];
            item in w.announced && item !in w.failed && item !in w.absorbed ==>
              item in l.backlog || item in l.gone || item.e in l.offered || l.excuses != {}
    ensures var l := run[|run| - 1].listeners[p];
            item in l.before ==> item in l.backlog || item in l.gone
  {
    hide SlotsKnown, AllLive, RoutesHold, JobsFit, Next, Initial;
    RunsKeepInv(c, run);
    var w := run[|run| - 1];
    if item in w.announced && item !in w.failed && item !in w.absorbed {
      assert !Missing(w, p, item);
    }
  }

  /**
   In every run, when the local slot takes the event, whoever missed the item before still misses it
   if and only if the route names another node.
   */
  lemma AbsorbedExactly(c: Config, run: seq<World>, t: nat, w': World, p: Place)
    requires IsRun(c, run)
    requires var w := run[|run| - 1];
             t in w.jobs && w.jobs[t].Announce? && Moves(c, w, Go(t), w')
             && var (at, item) := (w.jobs[t].at, w.jobs[t].item);
                at in w.hubs && !Outcome(w.hubs[at], item.to, c.capacity).Absent? && Missing(w, p, item)
    ensures var w := run[|run| - 1];
            Missing(w', p, w.jobs[t].item) <==> RoutedElsewhere(w, w.jobs[t].at, w.jobs[t].item.to)
  {
    var w := run[|run| - 1];
    hide IsRun, Missing, Outcome, PostsAt, Grows, Holds, RoutedElsewhere;
    hide SlotsKnown, AllLive, RoutesHold, Kept, NoneMissed;
    var (at, item) := (w.jobs[t].at, w.jobs[t].item);
    RunsKeepInv(c, run);
    SingleHasNoRoutes(c, run);
    assert JobFits(c, w, w.jobs[t]);
    MissingWhere(c, w, at, item, p);
    HeldBy(w, p, item);
    var heard := Heard(w, at, item, c.capacity);
    MissingAlike(heard, w', p, item);
    ElsewhereOnly(c, w, at, item, p);
    if p.0 == at {
      HeardServes(c, w, at, item, p);
    } else {
      HeardElsewhere(w, at, item, c.capacity, p);
    }
  }

  lemma ElsewhereOnly(c: Config, w: World, at: string, item: Item, p: Place)
    requires c.Single? ==> p.0 == at && w.routes == map[]
    requires c.Clustered? ==> item.to in w.routes && w.routes[item.to] == p.0
    ensures RoutedElsewhere(w, at, item.to) <==> p.0 != at
  {
  }

  /** A notification on one node leaves the listeners of the others alone. */
  lemma HeardElsewhere(w: World, n: string, item: Item, capacity: nat, p: Place)
    requires n in w.hubs && p.0 != n
    ensures Missing(Heard(w, n, item, capacity), p, item) <==> Missing(w, p, item)
  {
  }

  /** Without a cluster there are no routes, so no route excuses arise. */
  ghost predicate NoRouteExcuses(c: Config, w: World) {
    c.Single? ==>
      w.routes == map[] && forall p :: p in w.listeners ==> w.listeners[p].excuses !! {RouteTaken, RouteCleared}
  }

  lemma SingleStep(c: Config, w: World, m: Move, w': World)
    requires NoRouteExcuses(c, w) && Moves(c, w, m, w') && !m.Go?
    ensures NoRouteExcuses(c, w')
  {
    hide Registered, Closed, Unregistered, Taken, Holds, PostsAt, ListensAt;
  }

  lemma SingleGo(c: Config, w: World, t: nat, w': World)
    requires NoRouteExcuses(c, w) && Moves(c, w, Go(t), w')
    ensures NoRouteExcuses(c, w')
  {
    hide AfterNotify, Outcome;
  }

  lemma {:induction false} SingleHasNoRoutes(c: Config, run: seq<World>)
    requires IsRun(c, run)
    ensures NoRouteExcuses(c, run[|run| - 1])
    decreases |run|
  {
    hide Moves;
    if |run| > 1 {
      var before := run[..|run| - 1];
      forall i | 0 <= i < |before| - 1 ensures Next(c, before[i], before[i + 1]) {
        assert before[i] == run[i] && before[i + 1] == run[i + 1];
      }
      SingleHasNoRoutes(c, before);
      var w, w' := run[|run| - 2], run[|run| - 1];
      assert Next(c, w, w');
      var m :| Moves(c, w, m, w');
      if m.Go? {
        SingleGo(c, w, m.t, w');
      } else {
        SingleStep(c, w, m, w');
      }
    }
  }

  /** An announcing node has no slot for a recipient that listens on other nodes only. */
  lemma NoLocalSlot(c: Config, w: World, at: string, item: Item)
    requires SlotsKnown(c, w) && PostsAt(c, at, item.to) && Apart(c, item.to) && at in w.hubs
    ensures Outcome(w.hubs[at], item.to, c.capacity).Absent?
  {
    assert item.to in w.hubs[at].slots ==> ListensAt(c, at, item.to);
  }

  /** Only the local announcement of an item can absorb it. */
  lemma StepAbsorbs(c: Config, w: World, job: Job)
    ensures Stepped(c, w, job).0.absorbed ==
            if job.Announce? && job.at in w.hubs && !Outcome(w.hubs[job.at], job.item.to, c.capacity).Absent?
               && RoutedElsewhere(w, job.at, job.item.to)
            then w.absorbed + {job.item} else w.absorbed
  {
    hide Outcome, AfterNotify;
  }

  lemma MoveAbsorbs(c: Config, w: World, m: Move, w': World)
    requires Moves(c, w, m, w')
    ensures (m.Go? ==> m.t in w.jobs)
    ensures w'.absorbed == if m.Go? then Stepped(c, w, w.jobs[m.t]).0.absorbed else w.absorbed
  {
    hide Stepped, Registered, Closed, Unregistered, Taken, Holds, PostsAt, ListensAt;
  }

  lemma NoRouteElsewhere(w: World, item: Item)
    ensures w.routes == map[] ==> forall at :: !RoutedElsewhere(w, at, item.to)
  {
  }

  lemma AbsorbsNew(c: Config, w: World, w': World, item: Item)
    requires Inv(c, w) && Next(c, w, w') && item !in w.absorbed
    requires Apart(c, item.to) || w.routes == map[]
    ensures item !in w'.absorbed
  {
    hide Moves, SlotsKnown, AllLive, RoutesHold, Kept, NoneMissed, Outcome, Apart, Stepped, RoutedElsewhere;
    var m :| Moves(c, w, m, w');
    MoveAbsorbs(c, w, m, w');
    if m.Go? {
      var job := w.jobs[m.t];
      StepAbsorbs(c, w, job);
      assert JobFits(c, w, job);
      NoRouteElsewhere(w, item);
      if job.Announce? && job.item == item && job.at in w.hubs && Apart(c, item.to) {
        NoLocalSlot(c, w, job.at, item);
      }
    }
  }

  /** Nothing is absorbed without a cluster, and with split roles nothing for a user agent. */
  lemma {:induction false} AbsorbsNone(c: Config, run: seq<World>, item: Item)
    requires IsRun(c, run) && (c.Single? || Apart(c, item.to))
    ensures item !in run[|run| - 1].absorbed
    decreases |run|
  {
    hide Next, Inv, Apart;
    if |run| > 1 {
      var before := run[..|run| - 1];
      forall i | 0 <= i < |before| - 1 ensures Next(c, before[i], before[i + 1]) {
        assert before[i] == run[i] && before[i + 1] == run[i + 1];
      }
      AbsorbsNone(c, before, item);
      RunsKeepInv(c, before);
      SingleHasNoRoutes(c, before);
      AbsorbsNew(c, run[|run| - 2], run[|run| - 1], item);
    }
  }

  /**
   A corollary of how items are stored and removed: the next listener to read its backlog finds an
   item not removed.
   */
  lemma StillStored(c: Config, run: seq<World>, item: Item)
    requires IsRun(c, run) && item in run[|run| - 1].ever && item !in run[|run| - 1].removed
    ensures item in run[|run| - 1].stored
    ensures forall p, w' :: Moves(c, run[|run| - 1], CatchUp(p), w') ==> item in w'.listeners[p].backlog
  {
    hide IsRun, SlotsKnown, AllLive, RoutesHold, JobsFit, NoneMissed;
    RunsKeepInv(c, run);
  }

  // -- A delayed cleanup ----------------------------------------------------

  const CLUSTER := Clustered({"c"}, {"e"}, 1)

  ghost function Empty(): World {
    World.World(map["c" := HubState(map[], map[])], map[], {}, {}, {}, {}, {}, {}, map[], map[])
  }

  /** A session registered, set its route and ended; the cleanup of its route is under way. */
  ghost function FirstEnded(to: Recipient): World {
    var w := RouteSet(Joined(Empty(), "c", to, 0, 1), ("c", 0));
    Left(w, ("c", 0)).(jobs := map[0 := Clear(to, "c")])
  }

  /** A second session on the same node registered, set its route and read its backlog. */
  ghost function SecondCaught(to: Recipient): World {
    CaughtUp(RouteSet(Joined(FirstEnded(to), "c", to, 1, 1), ("c", 1)), ("c", 1))
  }

  /** The old cleanup lands and takes the new session's route. */
  ghost function CleanupLanded(to: Recipient): World {
    Drop(RouteGone(SecondCaught(to), to, "c"), 0)
  }

  lemma FirstJoins(to: Recipient)
    requires to.UserAgentAt?
    ensures var w1 := Joined(Empty(), "c", to, 0, 1);
            Moves(CLUSTER, Empty(), Register("c", to, 0), w1)
            && ("c", 0) in w1.listeners && Moves(CLUSTER, w1, SetRoute(("c", 0), 0), RouteSet(w1, ("c", 0)))
  {
  }

  lemma FirstEnds(to: Recipient)
    requires to.UserAgentAt?
    ensures var w2 := RouteSet(Joined(Empty(), "c", to, 0, 1), ("c", 0));
            Moves(CLUSTER, w2, End(("c", 0), 0), FirstEnded(to))
  {
  }

  lemma FirstSession(to: Recipient) returns (run: seq<World>)
    requires to.UserAgentAt?
    ensures IsRun(CLUSTER, run) && run[|run| - 1] == FirstEnded(to)
  {
    hide Moves, Joined, RouteSet, FirstEnded;
    FirstJoins(to);
    FirstEnds(to);
    var w0 := Empty();
    var w1 := Joined(w0, "c", to, 0, 1);
    run := [w0];
    OneMoreMove(CLUSTER, run, Register("c", to, 0), w1);
    OneMoreMove(CLUSTER, run + [w1], SetRoute(("c", 0), 0), RouteSet(w1, ("c", 0)));
    OneMoreMove(CLUSTER, run + [w1] + [RouteSet(w1, ("c", 0))], End(("c", 0), 0), FirstEnded(to));
    run := run + [w1] + [RouteSet(w1, ("c", 0))] + [FirstEnded(to)];
  }

  lemma OneMoreMove(c: Config, run: seq<World>, m: Move, w: World)
    requires IsRun(c, run) && Moves(c, run[|run| - 1], m, w)
    ensures IsRun(c, run + [w])
  {
    hide Moves, Initial;
    var longer := run + [w];
    assert Next(c, run[|run| - 1], w);
    forall i | 0 <= i < |longer| - 1 ensures Next(c, longer[i], longer[i + 1]) {
      if i < |run| - 1 {
        assert Next(c, run[i], run[i + 1]);
      }
    }
  }

  lemma SecondJoins(to: Recipient)
    requires to.UserAgentAt?
    ensures var w1 := Joined(FirstEnded(to), "c", to, 1, 1);
            Moves(CLUSTER, FirstEnded(to), Register("c", to, 1), w1)
            && ("c", 1) in w1.listeners && Moves(CLUSTER, w1, SetRoute(("c", 1), 1), RouteSet(w1, ("c", 1)))
  {
  }

  lemma SecondCatchesUp(to: Recipient)
    requires to.UserAgentAt?
    ensures var w1 := Joined(FirstEnded(to), "c", to, 1, 1);
            ("c", 1) in w1.listeners && Moves(CLUSTER, RouteSet(w1, ("c", 1)), CatchUp(("c", 1)), SecondCaught(to))
  {
  }

  lemma SecondSession(to: Recipient) returns (run: seq<World>)
    requires to.UserAgentAt?
    ensures IsRun(CLUSTER, run) && run[|run| - 1] == SecondCaught(to)
  {
    hide IsRun, Moves, Joined, RouteSet, FirstEnded, SecondCaught;
    SecondJoins(to);
    SecondCatchesUp(to);
    run := FirstSession(to);
    var w1 := Joined(FirstEnded(to), "c", to, 1, 1);
    var w2 := RouteSet(w1, ("c", 1));
    OneMoreMove(CLUSTER, run, Register("c", to, 1), w1);
    OneMoreMove(CLUSTER, run + [w1], SetRoute(("c", 1), 1), w2);
    OneMoreMove(CLUSTER, run + [w1] + [w2], CatchUp(("c", 1)), SecondCaught(to));
    run := run + [w1] + [w2] + [SecondCaught(to)];
  }

  lemma SecondLooks(to: Recipient)
    requires to.UserAgentAt?
    ensures var w := CleanupLanded(to);
            w.routes == map[] && w.jobs == map[] && w.ever == {} && w.failed == {} && w.absorbed == {}
            && w.hubs.Keys == {"c"} && ("c", 1) in w.listeners
            && w.hubs["c"].slots == map[to := 1] && 1 in w.hubs["c"].channels && w.hubs["c"].channels[1].open
            && w.listeners[("c", 1)] == Listener(to, Caught, {}, {}, {}, [], {RouteCleared})
    ensures 0 in SecondCaught(to).jobs && SecondCaught(to).jobs[0] == Clear(to, "c")
  {
    var w1 := Joined(FirstEnded(to), "c", to, 1, 1);
    assert FirstEnded(to).routes == map[to := "c"];
    assert SecondCaught(to).listeners[("c", 1)] == Listener(to, Caught, {}, {}, {}, [], {});
    assert CleanupLanded(to).routes == map[];
    assert CleanupLanded(to).jobs == map[];
  }

  /**
   The cleared-route excuse is needed: a cleanup left over from an earlier session on the same
   node takes a live session's route, and the next item passes the session by, although it is
   registered, has room and nothing failed. The item stays stored.
   */
  lemma DelayedCleanupMisses(item: Item) returns (run: seq<World>)
    requires item.to.UserAgentAt? && !item.e.Gone?
    ensures IsRun(CLUSTER, run)
    ensures var w := run[|run| - 1];
            item in w.announced && item !in w.failed && item !in w.absorbed && item in w.stored
            && ("c", 1) in w.listeners && "c" in w.hubs && Holds(w.hubs["c"], item.to, 1)
            && w.listeners[("c", 1)] == Listener(item.to, Caught, {}, {}, {}, [], {RouteCleared})
  {
    hide IsRun, Initial, SecondCaught, CleanupLanded, FirstEnded;
    run := SecondSession(item.to);
    SecondLooks(item.to);
    var w0 := CleanupLanded(item.to);
    LandsNext(item.to);
    OneMoreMove(CLUSTER, run, Go(0), w0);
    run := run + [w0];
    var w1 := w0.(jobs := w0.jobs[1 := Store("e", item)]);
    OneMoreMove(CLUSTER, run, Post(1, "e", item), w1);
    run := run + [w1];
    var w2 := w1.(stored := w1.stored + {item}, ever := w1.ever + {item}, jobs := w1.jobs[1 := Announce("e", item)]);
    OneMoreMove(CLUSTER, run, Go(1), w2);
    run := run + [w2];
    var w3 := w2.(jobs := w2.jobs[1 := LookUp("e", item)]);
    OneMoreMove(CLUSTER, run, Go(1), w3);
    run := run + [w3];
    var w4 := Drop(Over(w3, item), 1);
    OneMoreMove(CLUSTER, run, Go(1), w4);
    run := run + [w4];
  }

  lemma LandsNext(to: Recipient)
    requires to.UserAgentAt?
    ensures Moves(CLUSTER, SecondCaught(to), Go(0), CleanupLanded(to))
  {
    hide SecondCaught;
    SecondLooks(to);
  }

  // -- An old slot in the way -----------------------------------------------

  const PAIR := Clustered({"a", "b"}, {"a", "b"}, 1)

  ghost function TwoNodes(): World {
    World.World(map["a" := HubState(map[], map[]), "b" := HubState(map[], map[])],
                map[], {}, {}, {}, {}, {}, {}, map[], map[])
  }

  /** A node whose one registration holds the slot and has nothing buffered. */
  function Holding(to: Recipient): HubState {
    HubState(map[to := 0], map[0 := Channel([], true)])
  }

  /** A listener registered on one node and set its route. */
  ghost function Settled(to: Recipient): World {
    TwoNodes().(hubs := TwoNodes().hubs["a" := Holding(to)], routes := map[to := "a"],
                listeners := map[("a", 0) := Listener(to, Routed, {}, {}, {}, [], {})])
  }

  /** The recipient moved to the other node and caught up there; the notice for the old listener is under way. */
  ghost function Moved(to: Recipient): World {
    Settled(to).(hubs := Settled(to).hubs["b" := Holding(to)], routes := map[to := "b"],
                 listeners := map[("a", 0) := Listener(to, Routed, {}, {}, {}, [], {RouteTaken}),
                                  ("b", 0) := Listener(to, Caught, {}, {}, {}, [], {})],
                 jobs := map[0 := Forward(Item(to, Gone), "a")])
  }

  lemma Settles(to: Recipient)
    ensures var w1 := Joined(TwoNodes(), "a", to, 0, 1);
            Moves(PAIR, TwoNodes(), Register("a", to, 0), w1)
            && ("a", 0) in w1.listeners && Moves(PAIR, w1, SetRoute(("a", 0), 0), Settled(to))
  {
    var w1 := Joined(TwoNodes(), "a", to, 0, 1);
    assert w1.listeners == map[("a", 0) := Listener(to, Registering, {}, {}, {}, [], {})];
    assert Registered(HubState(map[], map[]), to, 0, 1) == Holding(to);
    var w2 := RouteSet(w1, ("a", 0));
    assert w2.listeners == Settled(to).listeners;
    assert w2.routes == Settled(to).routes;
  }

  lemma MovesOver(to: Recipient)
    ensures var w1 := Joined(Settled(to), "b", to, 0, 1);
            Moves(PAIR, Settled(to), Register("b", to, 0), w1) && ("b", 0) in w1.listeners
            && var w2 := RouteSet(w1, ("b", 0)).(jobs := map[0 := Forward(Item(to, Gone), "a")]);
               Moves(PAIR, w1, SetRoute(("b", 0), 0), w2)
               && ("b", 0) in w2.listeners && Moves(PAIR, w2, CatchUp(("b", 0)), Moved(to))
  {
    var w1 := Joined(Settled(to), "b", to, 0, 1);
    assert w1.listeners == Settled(to).listeners[("b", 0) := Listener(to, Registering, {}, {}, {}, [], {})];
    assert Registered(HubState(map[], map[]), to, 0, 1) == Holding(to);
    var w2 := RouteSet(w1, ("b", 0));
    assert w2.listeners[("a", 0)].excuses == {RouteTaken};
    assert w2.listeners == map[("a", 0) := Listener(to, Routed, {}, {}, {}, [], {RouteTaken}),
                               ("b", 0) := Listener(to, Routed, {}, {}, {}, [], {})];
    assert w2.routes == map[to := "b"];
    assert w1.jobs[0 := Forward(Item(to, Gone), "a")] == Moved(to).jobs;
    assert CaughtUp(w2, ("b", 0)).listeners == Moved(to).listeners;
  }

  /**
   The absorbed excuse is needed where roles overlap: the old listener's slot takes the next item on
   the announcing node, and the recipient's live listener on the other node, which holds the route,
   has room and has no excuse, is passed by. The item stays stored.
   */
  lemma OldSlotAbsorbs(item: Item) returns (run: seq<World>)
    requires !item.e.Gone?
    ensures IsRun(PAIR, run)
    ensures var w := run[|run| - 1];
            item in w.announced && item !in w.failed && item in w.absorbed && item in w.stored
            && w.routes == map[item.to := "b"] && "b" in w.hubs && w.hubs["b"] == Holding(item.to)
            && ("b", 0) in w.listeners && w.listeners[("b", 0)] == Listener(item.to, Caught, {}, {}, {}, [], {})
  {
    hide IsRun, Joined, RouteSet, Settled, Moved;
    var to := item.to;
    Settles(to);
    MovesOver(to);
    var w1, w2 := Joined(TwoNodes(), "a", to, 0, 1), Joined(Settled(to), "b", to, 0, 1);
    var w3 := RouteSet(w2, ("b", 0)).(jobs := map[0 := Forward(Item(to, Gone), "a")]);
    run := StartOf(PAIR, TwoNodes());
    run := Onward(PAIR, run, Register("a", to, 0), w1);
    run := Onward(PAIR, run, SetRoute(("a", 0), 0), Settled(to));
    run := Onward(PAIR, run, Register("b", to, 0), w2);
    run := Onward(PAIR, run, SetRoute(("b", 0), 0), w3);
    run := Onward(PAIR, run, CatchUp(("b", 0)), Moved(to));
    var w4, w5, w6 := OldSlotTakes(item);
    run := Onward(PAIR, run, Post(1, "a", item), w4);
    run := Onward(PAIR, run, Go(1), w5);
    run := Onward(PAIR, run, Go(1), w6);
  }

  lemma OldSlotTakes(item: Item) returns (w1: World, w2: World, w3: World)
    requires !item.e.Gone?
    ensures Moves(PAIR, Moved(item.to), Post(1, "a", item), w1) && Moves(PAIR, w1, Go(1), w2)
            && Moves(PAIR, w2, Go(1), w3)
    ensures item in w3.announced && item !in w3.failed && item in w3.absorbed && item in w3.stored
    ensures w3.routes == map[item.to := "b"] && "b" in w3.hubs && w3.hubs["b"] == Holding(item.to)
    ensures ("b", 0) in w3.listeners && w3.listeners[("b", 0)] == Listener(item.to, Caught, {}, {}, {}, [], {})
  {
    var w := Moved(item.to);
    w1 := w.(jobs := w.jobs[1 := Store("a", item)]);
    w2 := w1.(stored := {item}, ever := {item}, jobs := w1.jobs[1 := Announce("a", item)]);
    w3 := Drop(Over(Absorbed(Heard(w2, "a", item, 1), "a", item), item), 1);
    assert Outcome(w2.hubs["a"], item.to, 1).Delivered?;
  }

  lemma StartOf(c: Config, w: World) returns (run: seq<World>)
    requires Initial(c, w)
    ensures IsRun(c, run) && run[|run| - 1] == w
  {
    run := [w];
  }

  lemma Onward(c: Config, run: seq<World>, m: Move, w: World) returns (longer: seq<World>)
    requires IsRun(c, run) && Moves(c, run[|run| - 1], m, w)
    ensures IsRun(c, longer) && longer[|longer| - 1] == w
  {
    OneMoreMove(c, run, m, w);
    longer := run + [w];
  }
}
