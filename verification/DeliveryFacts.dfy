/**
 What the moves of a delivery run do, in terms of the world's fields before and after them alone.
 Nothing here names the functions by which the moves are defined.
 */
module DeliveryFacts {
  import opened Types
  import Hub
  import opened Delivery

  /** The slot of `to` on node `n` belongs to registration `id`, whose receiver still exists. */
  predicate OpenSlot(w: World, n: string, to: Recipient, id: nat) {
    n in w.hubs && to in w.hubs[n].slots && w.hubs[n].slots[to] == id
    && id in w.hubs[n].channels && w.hubs[n].channels[id].open
  }

  /** Job `t` hands `item` to the hub of node `n`: the local announcement, or a forward that arrives. */
  predicate HandsTo(w: World, t: nat, n: string, item: Item) {
    t in w.jobs && (w.jobs[t] == Announce(n, item) || w.jobs[t] == Forward(item, n))
  }

  /** The channel of registration `id` on node `n` gained the event, and so did its listener; nothing failed. */
  predicate Gained(w: World, w': World, n: string, id: nat, e: Hub.Event) {
    n in w.hubs && id in w.hubs[n].channels && n in w'.hubs && id in w'.hubs[n].channels
    && w'.hubs[n].channels[id].open && w'.hubs[n].channels[id].buffer == w.hubs[n].channels[id].buffer + [e]
    && w'.hubs[n].slots == w.hubs[n].slots
    && (n, id) in w.listeners && (n, id) in w'.listeners
    && w'.listeners[(n, id)].offered == w.listeners[(n, id)].offered + [e]
    && w'.listeners[(n, id)].excuses == w.listeners[(n, id)].excuses
  }

  /** Registration `id` on node `n` lost the slot of `to`, got nothing, and is excused. */
  predicate LosesSlot(w: World, w': World, n: string, to: Recipient, id: nat) {
    n in w.hubs && n in w'.hubs && to !in w'.hubs[n].slots && w'.hubs[n].channels == w.hubs[n].channels
    && (n, id) in w.listeners && (n, id) in w'.listeners && Overflowed in w'.listeners[(n, id)].excuses
    && w'.listeners[(n, id)].offered == w.listeners[(n, id)].offered
  }

  /** Whoever holds a slot is a listener for that recipient. */
  lemma SlotListens(c: Config, run: seq<World>, n: string, to: Recipient)
    requires IsRun(c, run) && n in run[|run| - 1].hubs && to in run[|run| - 1].hubs[n].slots
    ensures var w := run[|run| - 1];
            (n, w.hubs[n].slots[to]) in w.listeners && w.listeners[(n, w.hubs[n].slots[to])].to == to
  {
    hide IsRun, AllLive, RoutesHold, Kept, JobsFit, NoneMissed, ListensAt;
    RunsKeepInv(c, run);
  }

  lemma HeardOpen(w: World, n: string, item: Item, capacity: nat, id: nat)
    requires OpenSlot(w, n, item.to, id) && (n, id) in w.listeners && |w.hubs[n].channels[id].buffer| < capacity
    ensures Hub.Outcome(w.hubs[n], item.to, capacity).Delivered?
    ensures Gained(w, Heard(w, n, item, capacity), n, id, item.e)
  {
  }

  lemma HeardFull(w: World, n: string, item: Item, capacity: nat, id: nat)
    requires OpenSlot(w, n, item.to, id) && (n, id) in w.listeners && |w.hubs[n].channels[id].buffer| >= capacity
    ensures Hub.Outcome(w.hubs[n], item.to, capacity).Dropped?
    ensures LosesSlot(w, Heard(w, n, item, capacity), n, item.to, id)
  {
  }

  /** What a job that hands its item to a slot does besides. */
  lemma HandedOn(c: Config, w: World, t: nat, w': World, n: string, item: Item)
    requires HandsTo(w, t, n, item) && Moves(c, w, Go(t), w') && n in w.hubs
    requires !Hub.Outcome(w.hubs[n], item.to, c.capacity).Absent?
    ensures var heard := Heard(w, n, item, c.capacity);
            w'.hubs == heard.hubs && w'.listeners == heard.listeners
    ensures w'.failed == w.failed && t !in w'.jobs && (!item.e.Gone? ==> item in w'.announced)
  {
    hide Hub.AfterNotify, Hub.Outcome;
  }

  /** An announcement or a forward that meets an open slot with room delivers. */
  lemma OpenSlotGets(c: Config, run: seq<World>, t: nat, w': World, n: string, item: Item, id: nat)
    requires IsRun(c, run)
    requires var w := run[|run| - 1];
             HandsTo(w, t, n, item) && OpenSlot(w, n, item.to, id) && Moves(c, w, Go(t), w')
             && |w.hubs[n].channels[id].buffer| < c.capacity
    ensures Gained(run[|run| - 1], w', n, id, item.e) && w'.failed == run[|run| - 1].failed && t !in w'.jobs
    ensures !item.e.Gone? ==> item in w'.announced
  {
    hide HandsTo, Moves, Heard, Hub.Outcome;
    var w := run[|run| - 1];
    SlotListens(c, run, n, item.to);
    HeardOpen(w, n, item, c.capacity, id);
    HandedOn(c, w, t, w', n, item);
  }

  /** Without room the listener loses its slot and is excused; nothing failed. */
  lemma FullSlotGoes(c: Config, run: seq<World>, t: nat, w': World, n: string, item: Item, id: nat)
    requires IsRun(c, run)
    requires var w := run[|run| - 1];
             HandsTo(w, t, n, item) && OpenSlot(w, n, item.to, id) && Moves(c, w, Go(t), w')
             && |w.hubs[n].channels[id].buffer| >= c.capacity
    ensures LosesSlot(run[|run| - 1], w', n, item.to, id) && w'.failed == run[|run| - 1].failed && t !in w'.jobs
  {
    hide HandsTo, Moves, Heard, Hub.Outcome;
    var w := run[|run| - 1];
    SlotListens(c, run, n, item.to);
    HeardFull(w, n, item, c.capacity, id);
    HandedOn(c, w, t, w', n, item);
  }

  /** An announcement fails by an error on its way, or because the node it is sent to is not there; never otherwise. */
  lemma FailsOnlyBy(c: Config, w: World, m: Move, w': World, item: Item)
    requires Moves(c, w, m, w') && item in w'.failed && item !in w.failed
    ensures m.Fail? || m.Unreachable? || m.Go?
    ensures m.t in w.jobs
    ensures m.Fail? ==> (w.jobs[m.t].LookUp? || w.jobs[m.t].Forward?) && w.jobs[m.t].item == item
    ensures m.Unreachable? ==> w.jobs[m.t].Forward? && w.jobs[m.t].item == item
    ensures m.Go? ==> w.jobs[m.t].Forward? && w.jobs[m.t].item == item && w.jobs[m.t].target !in w.hubs
  {
    hide Stepped, Hub.Registered, Hub.Closed, Hub.Unregistered, Hub.Taken, PostsAt, ListensAt;
    if m.Go? {
      StepFails(c, w, w.jobs[m.t]);
    }
  }

  lemma StepFails(c: Config, w: World, job: Job)
    ensures Stepped(c, w, job).0.failed ==
            if job.Forward? && job.target !in w.hubs then w.failed + {job.item} else w.failed
  {
    hide Hub.AfterNotify, Hub.Outcome;
  }

  /** An item is absorbed only by an open slot on the announcing node while the route names another. */
  lemma AbsorbedOnlyBy(c: Config, w: World, m: Move, w': World, item: Item)
    requires Moves(c, w, m, w') && item in w'.absorbed && item !in w.absorbed
    ensures m.Go? && m.t in w.jobs && w.jobs[m.t].Announce? && w.jobs[m.t].item == item
    ensures var at := w.jobs[m.t].at;
            at in w.hubs && item.to in w.hubs[at].slots && OpenSlot(w, at, item.to, w.hubs[at].slots[item.to])
            && item.to in w.routes && w.routes[item.to] != at
  {
    hide Moves, Stepped;
    MoveAbsorbs(c, w, m, w');
    if m.Go? {
      StepAbsorbs(c, w, w.jobs[m.t]);
    }
  }

  // -- Excuses --------------------------------------------------------------

  /** What gives listener `p` the excuse. */
  ghost predicate Gives(c: Config, w: World, m: Move, p: Place, why: Excuse)
    requires p in w.listeners
  {
    var to := w.listeners[p].to;
    var holds := p.0 in w.hubs && to in w.hubs[p.0].slots && w.hubs[p.0].slots[to] == p.1;
    match why
    case Replaced => m.Register? && m.n == p.0 && m.to == to && holds
    case Overflowed =>
      m.Go? && (exists item :: HandsTo(w, m.t, p.0, item) && item.to == to)
      && OpenSlot(w, p.0, to, p.1) && |w.hubs[p.0].channels[p.1].buffer| >= c.capacity
    case Ended =>
      (m.End? && m.p == p)
      || (m.Go? && (exists item :: HandsTo(w, m.t, p.0, item) && item.to == to)
          && holds && !OpenSlot(w, p.0, to, p.1))
    case RouteTaken =>
      m.SetRoute? && m.p in w.listeners && w.listeners[m.p].to == to && m.p.0 != p.0
      && !w.listeners[p].phase.Registering?
    case RouteCleared =>
      m.Go? && m.t in w.jobs && w.jobs[m.t] == Clear(to, p.0) && to in w.routes && w.routes[to] == p.0
  }

  /** A listener gets an excuse only for its reason. */
  lemma ExcusedOnlyFor(c: Config, run: seq<World>, m: Move, w': World, p: Place, why: Excuse)
    requires IsRun(c, run) && Moves(c, run[|run| - 1], m, w') && p in run[|run| - 1].listeners
    requires p in w'.listeners && why in w'.listeners[p].excuses && why !in run[|run| - 1].listeners[p].excuses
    ensures Gives(c, run[|run| - 1], m, p, why)
  {
    hide Moves, Gives;
    var w := run[|run| - 1];
    RunKnowsSlots(c, run);
    if m.Go? {
      GoExcuses(c, w, m.t, w', p, why);
    } else {
      ListenerExcuses(c, w, m, w', p, why);
    }
  }

  lemma RunKnowsSlots(c: Config, run: seq<World>)
    requires IsRun(c, run)
    ensures SlotsKnown(c, run[|run| - 1])
  {
    hide IsRun, SlotsKnown, AllLive, RoutesHold, Kept, JobsFit, NoneMissed;
    RunsKeepInv(c, run);
  }

  lemma ListenerExcuses(c: Config, w: World, m: Move, w': World, p: Place, why: Excuse)
    requires SlotsKnown(c, w) && Moves(c, w, m, w') && !m.Go? && p in w.listeners
    requires p in w'.listeners && why in w'.listeners[p].excuses && why !in w.listeners[p].excuses
    ensures Gives(c, w, m, p, why)
  {
    hide Hub.Registered, Hub.Closed, Hub.Unregistered, Hub.Taken, PostsAt, ListensAt, OpenSlot, HandsTo;
    assert m.Register? || m.SetRoute? || m.End?;
  }

  lemma GoExcuses(c: Config, w: World, t: nat, w': World, p: Place, why: Excuse)
    requires SlotsKnown(c, w) && Moves(c, w, Go(t), w') && p in w.listeners
    requires p in w'.listeners && why in w'.listeners[p].excuses && why !in w.listeners[p].excuses
    ensures Gives(c, w, Go(t), p, why)
  {
    hide SlotsKnown, Gives, Heard, Stepped;
    var job := w.jobs[t];
    JobListeners(c, w, job);
    match job {
      case Announce(at, item) => HeardExcuses(c, w, t, at, item, p, why);
      case Forward(item, target) => HeardExcuses(c, w, t, target, item, p, why);
      case Clear(to, node) => ClearExcuses(c, w, t, to, node, p, why);
      case _ =>
    }
  }

  lemma JobListeners(c: Config, w: World, job: Job)
    ensures Stepped(c, w, job).0.listeners ==
            match job
            case Announce(at, item) => if at in w.hubs then Heard(w, at, item, c.capacity).listeners else w.listeners
            case Forward(item, target) =>
              if target in w.hubs then Heard(w, target, item, c.capacity).listeners else w.listeners
            case Clear(to, node) => RouteGone(w, to, node).listeners
            case _ => w.listeners
  {
    hide Heard, RouteGone, Hub.Outcome;
  }

  lemma HeardExcuses(c: Config, w: World, t: nat, n: string, item: Item, p: Place, why: Excuse)
    requires SlotsKnown(c, w) && HandsTo(w, t, n, item) && n in w.hubs && p in w.listeners
    requires var ls := Heard(w, n, item, c.capacity).listeners;
             p in ls && why in ls[p].excuses && why !in w.listeners[p].excuses
    ensures Gives(c, w, Go(t), p, why)
  {
    hide Hub.AfterNotify, ListensAt;
    assert item.to in w.hubs[n].slots && p == (n, w.hubs[n].slots[item.to]);
  }

  lemma ClearExcuses(c: Config, w: World, t: nat, to: Recipient, node: string, p: Place, why: Excuse)
    requires t in w.jobs && w.jobs[t] == Clear(to, node) && p in w.listeners
    requires var ls := RouteGone(w, to, node).listeners;
             p in ls && why in ls[p].excuses && why !in w.listeners[p].excuses
    ensures Gives(c, w, Go(t), p, why)
  {
  }

  /** A new listener has no excuse. */
  lemma StartsUnexcused(c: Config, w: World, m: Move, w': World, p: Place)
    requires Moves(c, w, m, w') && p in w'.listeners && p !in w.listeners
    ensures m.Register? && p == (m.n, m.id)
    ensures w'.listeners[p].to == m.to && w'.listeners[p].excuses == {} && w'.listeners[p].offered == []
    ensures OpenSlot(w', m.n, m.to, m.id)
  {
    hide Stepped, Hub.Closed, Hub.Unregistered, Hub.Taken, PostsAt, ListensAt;
    if m.Go? {
      NobodyJoins(c, w, w.jobs[m.t], p);
    }
  }

  lemma NobodyJoins(c: Config, w: World, job: Job, p: Place)
    ensures p in Stepped(c, w, job).0.listeners <==> p in w.listeners
  {
    hide Stepped, Hub.AfterNotify, Hub.Outcome;
    JobListeners(c, w, job);
  }

  // -- Announcements --------------------------------------------------------

  /** How far the announcement of `item` by job `t` has still to go. */
  function Rank(w: World, t: nat, item: Item): nat {
    if t !in w.jobs then 0
    else
      match w.jobs[t]
      case Store(_, i) => if i == item then 4 else 0
      case Announce(_, i) => if i == item then 3 else 0
      case LookUp(_, i) => if i == item then 2 else 0
      case Forward(i, _) => if i == item then 1 else 0
      case Clear(_, _) => 0
  }

  /** What is posted is stored before it is announced, and every step of an announcement brings it nearer its end. */
  lemma AnnouncementEnds(c: Config, w: World, t: nat, w': World, item: Item)
    requires Moves(c, w, Go(t), w') && Rank(w, t, item) > 0 && !item.e.Gone?
    ensures Rank(w', t, item) < Rank(w, t, item)
    ensures Rank(w, t, item) == 4 ==> item in w'.stored && item in w'.ever && Rank(w', t, item) == 3
    ensures Rank(w', t, item) == 0 ==> item in w'.announced
  {
    hide Hub.AfterNotify, Hub.Outcome;
  }

  /** Without a slot on the announcing node the item is forwarded to the node the route names. */
  lemma LookUpForwards(c: Config, w: World, t: nat, w': World, at: string, item: Item)
    requires Moves(c, w, Go(t), w') && t in w.jobs && w.jobs[t] == LookUp(at, item)
    ensures item.to in w.routes && w.routes[item.to] != at ==>
              t in w'.jobs && w'.jobs[t] == Forward(item, w.routes[item.to])
    ensures w'.listeners == w.listeners && w'.hubs == w.hubs && w'.routes == w.routes && w'.failed == w.failed
  {
  }

  /** A route that leads back to the announcing node is stale: it goes next. */
  lemma OwnRouteIsStale(c: Config, w: World, t: nat, w': World, at: string, item: Item)
    requires Moves(c, w, Go(t), w') && t in w.jobs && w.jobs[t] == LookUp(at, item)
    requires item.to in w.routes && w.routes[item.to] == at
    ensures t in w'.jobs && w'.jobs[t] == Clear(item.to, at)
  {
  }

  /** So does one that leads to a node without an open slot for the recipient, or to no node. */
  lemma EmptyRouteIsStale(c: Config, w: World, t: nat, w': World, target: string, item: Item)
    requires Moves(c, w, Go(t), w') && t in w.jobs && w.jobs[t] == Forward(item, target)
    requires forall id :: !OpenSlot(w, target, item.to, id)
    ensures t in w'.jobs && w'.jobs[t] == Clear(item.to, target)
  {
    hide Heard;
    assert target in w.hubs && item.to in w.hubs[target].slots ==>
      !OpenSlot(w, target, item.to, w.hubs[target].slots[item.to]);
  }

  /** A listener that reads its backlog gets what is stored, and nothing ever stored escapes the record. */
  lemma CatchUpReads(c: Config, w: World, p: Place, w': World)
    requires Moves(c, w, CatchUp(p), w')
    ensures p in w.listeners && p in w'.listeners && w'.listeners[p].phase.Caught?
    ensures w'.listeners[p].backlog == w.stored && w'.listeners[p].before == w.ever
    ensures w'.listeners[p].gone == w.removed && w'.listeners[p].excuses == w.listeners[p].excuses
  {
  }

  /** A new registration takes the slot; the one before it is told, if it has room, and excused. */
  lemma RegisterMeans(c: Config, w: World, n: string, to: Recipient, id: nat, w': World)
    requires Moves(c, w, Register(n, to, id), w')
    ensures n in w.hubs && n in w'.hubs && w'.hubs[n].slots == w.hubs[n].slots[to := id]
    ensures to in w.hubs[n].slots && OpenSlot(w, n, to, w.hubs[n].slots[to])
            && |w.hubs[n].channels[w.hubs[n].slots[to]].buffer| < c.capacity ==>
              var was := w.hubs[n].slots[to];
              was in w'.hubs[n].channels
              && w'.hubs[n].channels[was].buffer == w.hubs[n].channels[was].buffer + [Hub.Gone]
    ensures to in w.hubs[n].slots && (n, w.hubs[n].slots[to]) in w.listeners ==>
              var p := (n, w.hubs[n].slots[to]);
              p in w'.listeners && w'.listeners[p].excuses == w.listeners[p].excuses + {Replaced}
  {
    hide PostsAt, ListensAt;
  }

  /** A listener that ends frees the slot if it is still its own, and then, in a cluster, has its route cleared. */
  lemma EndMeans(c: Config, w: World, p: Place, t: nat, w': World)
    requires Moves(c, w, End(p, t), w')
    ensures p in w.listeners && p.0 in w.hubs && p.0 in w'.hubs
    ensures var to, slots := w.listeners[p].to, w.hubs[p.0].slots;
            if to in slots && slots[to] == p.1
            then w'.hubs[p.0].slots == slots - {to}
                 && w'.jobs == if c.Clustered? then w.jobs[t := Clear(to, p.0)] else w.jobs
            else w'.hubs[p.0].slots == slots && w'.jobs == w.jobs
    ensures p.1 in w'.hubs[p.0].channels ==> !w'.hubs[p.0].channels[p.1].open
  {
  }

  lemma StepRoutes(c: Config, w: World, job: Job)
    ensures Stepped(c, w, job).0.routes ==
            if job.Clear? && job.to in w.routes && w.routes[job.to] == job.node
            then w.routes - {job.to} else w.routes
  {
    hide Hub.AfterNotify, Hub.Outcome;
  }

  /** A route is cleared only if it names the node. */
  lemma ClearedExactly(c: Config, w: World, t: nat, w': World)
    requires Moves(c, w, Go(t), w')
    ensures var job := w.jobs[t];
            w'.routes == if job.Clear? && job.to in w.routes && w.routes[job.to] == job.node
                         then w.routes - {job.to} else w.routes
  {
    hide Stepped;
    StepRoutes(c, w, w.jobs[t]);
  }

  /** Setting a route sends the gone notice to the node that had it before. */
  lemma RouteSetTells(c: Config, w: World, p: Place, t: nat, w': World)
    requires Moves(c, w, SetRoute(p, t), w')
    ensures p in w.listeners
    ensures var to := w.listeners[p].to;
            w'.routes == w.routes[to := p.0]
            && if to in w.routes && w.routes[to] != p.0
               then w'.jobs == w.jobs[t := Forward(Item(to, Hub.Gone), w.routes[to])] else w'.jobs == w.jobs
  {
  }

  /** Nothing else touches a route. */
  lemma RoutesKept(c: Config, w: World, m: Move, w': World)
    requires Moves(c, w, m, w') && !m.Go? && !m.SetRoute?
    ensures w'.routes == w.routes
  {
    hide Hub.Registered, Hub.Closed, Hub.Unregistered, Hub.Taken, PostsAt, ListensAt;
  }
}
