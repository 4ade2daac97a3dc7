/**
 What each store call means, in terms of the fields before and after it alone. Nothing here names
 the functions by which the contract states the calls.
 */
module StoreFacts {
  import opened Prelude
  import opened Types
  import opened StoreSpec

  // -- Removal and its receipts ---------------------------------------------

  /**
   Every message that went, asked for a receipt and named an existing subscription has exactly one
   receipt in `out`, a 410, and no other message has one. The queues gain exactly these receipts,
   in order, under new numbers.
   */
  ghost predicate Receipts410(s: State, s': State, out: seq<Numbered>) {
    (forall i, j :: 0 <= i < j < |out| ==> out[i].1.msgId != out[j].1.msgId && out[i].0 < out[j].0)
    && (forall i :: 0 <= i < |out| ==>
          var r := out[i].1;
          out[i].0 > s.last && r.status == 410 && r.msgId in s.messages && r.msgId !in s'.messages
          && s.messages[r.msgId].rsub == Some(r.rsub) && r.rsub in s.receipts)
    && (forall id :: id in s.messages && id !in s'.messages ==>
          s.messages[id].rsub.Some? && s.messages[id].rsub.value in s.receipts ==> Has410(out, id))
    && Holds(s.receipts, out, s'.receipts)
  }

  ghost predicate Has410(out: seq<Numbered>, id: string) {
    exists i :: 0 <= i < |out| && out[i].1.msgId == id
  }

  /** The queues `p` are the queues `q` and the receipts `out`. */
  ghost predicate Holds(q: map<string, Queue>, out: seq<Numbered>, p: map<string, Queue>) {
    p.Keys == q.Keys
    && (forall rsub, n :: rsub in q && n in q[rsub] ==> n in p[rsub] && p[rsub][n] == q[rsub][n])
    && (forall rsub, n :: rsub in q && n in p[rsub] && n !in q[rsub] ==>
          (n, p[rsub][n]) in out && p[rsub][n].rsub == rsub)
    && (forall i :: 0 <= i < |out| ==>
          out[i].1.rsub in p && out[i].0 in p[out[i].1.rsub] && p[out[i].1.rsub][out[i].0] == out[i].1)
  }

  lemma HoldsMore(q: map<string, Queue>, out: seq<Numbered>, p: map<string, Queue>, n: nat, r: Receipt)
    requires Holds(q, out, p) && r.rsub in q
    requires forall rsub, k :: rsub in q && k in p[rsub] ==> k < n
    ensures var queue: Queue := p[r.rsub]; Holds(q, out + [(n, r)], p[r.rsub := queue[n := r]])
  {
    var longer := out + [(n, r)];
    assert longer[|out|] == (n, r);
    forall x | x in out ensures x in longer {}
  }

  /** The queues after `out` was queued under increasing numbers above all earlier ones. */
  lemma {:induction false} QueuedHolds(q: map<string, Queue>, last: nat, out: seq<Numbered>)
    requires Ascending(last, out) && forall i :: 0 <= i < |out| ==> out[i].1.rsub in q
    requires forall rsub, n :: rsub in q && n in q[rsub] ==> n <= last
    ensures Holds(q, out, QueueAll(q, out))
    ensures forall rsub, n :: rsub in q && n in QueueAll(q, out)[rsub] ==> n <= LastOf(last, out)
    decreases |out|
  {
    hide Holds;
    if |out| == 0 {
      HoldsNone(q);
    } else {
      var front := out[..|out| - 1];
      var (n, r) := out[|out| - 1];
      QueuedHolds(q, last, front);
      var p := QueueAll(q, front);
      assert LastOf(last, front) < n;
      assert out == front + [(n, r)];
      QueueAllKeys(q, front);
      HoldsMore(q, front, p, n, r);
      assert QueueAll(q, out) == p[r.rsub := p[r.rsub][n := r]];
    }
  }

  lemma HoldsNone(q: map<string, Queue>)
    ensures Holds(q, [], q)
  {
  }

  lemma PurgedReceipts(s: State, gone: set<string>, s': State, out: seq<Numbered>)
    requires QueuesAgree(s) && Purged(s, gone, s', out)
    ensures Receipts410(s, s', out)
  {
    PurgedQueues(s, gone, s', out);
    hide Holds, QueueAll;
    forall id | id in s.messages && id !in s'.messages
      && s.messages[id].rsub.Some? && s.messages[id].rsub.value in s.receipts
      ensures Has410(out, id)
    {
      assert Receipted(out, id);
    }
  }

  lemma PurgedQueues(s: State, gone: set<string>, s': State, out: seq<Numbered>)
    requires QueuesAgree(s) && Purged(s, gone, s', out)
    ensures Holds(s.receipts, out, s'.receipts)
  {
    hide QueueAll, Holds;
    QueuedHolds(s.receipts, s.last, out);
  }

  lemma DroppedReceipts(s: State, agents: set<string>, chans: set<ChannelKey>, s': State, out: seq<Numbered>)
    requires QueuesAgree(s) && Dropped(s, agents, chans, s', out)
    ensures Receipts410(s, s', out)
  {
    hide Purged, Receipts410;
    var t := WithoutOwners(s, agents, chans);
    PurgedReceipts(t, MessagesOf(s, chans), s', out);
    SameReceipts410(t, s, s', out);
  }

  lemma SameReceipts410(t: State, s: State, s': State, out: seq<Numbered>)
    requires Receipts410(t, s', out) && t.messages == s.messages && t.receipts == s.receipts && t.last == s.last
    ensures Receipts410(s, s', out)
  {
  }

  /** `reap`: exactly the messages with an expiry of at most `now` go. */
  lemma ReapMeans(s: State, now: nat, s': State, a: Answer)
    requires Valid(s) && Step(s, Reap(now), s', a)
    ensures a.Owed? && Receipts410(s, s', a.queued)
    ensures forall id :: id in s'.messages <==> id in s.messages && s.messages[id].expiry > now
    ensures forall id :: id in s'.messages ==> s'.messages[id] == s.messages[id]
    ensures s'.userAgents == s.userAgents && s'.channels == s.channels && s'.push == s.push && s'.routes == s.routes
  {
    hide Receipts410, OwedFor, Ascending, QueueAll;
    PurgedReceipts(s, Expired(s, now), s', a.queued);
  }

  /** What dropping channels and their owners leaves. */
  ghost predicate Left(s: State, agents: set<string>, chans: set<ChannelKey>, s': State) {
    (forall u :: u in s'.userAgents <==> u in s.userAgents && u !in agents)
    && (forall u :: u in s'.userAgents ==> s'.userAgents[u] == s.userAgents[u])
    && (forall k :: k in s'.channels <==> k in s.channels && k !in chans)
    && (forall k :: k in s'.channels ==> s'.channels[k] == s.channels[k])
    && (forall p :: p in s'.push <==> p in s.push && s.push[p] !in chans)
    && (forall p :: p in s'.push ==> s'.push[p] == s.push[p])
    && (forall id :: id in s'.messages <==>
          id in s.messages && (s.messages[id].uaid, s.messages[id].channelId) !in chans)
    && (forall id :: id in s'.messages ==> s'.messages[id] == s.messages[id])
    && s'.routes == s.routes
  }

  lemma DroppedMeans(s: State, agents: set<string>, chans: set<ChannelKey>, s': State, out: seq<Numbered>)
    requires Valid(s) && Dropped(s, agents, chans, s', out)
    ensures Left(s, agents, chans, s') && Receipts410(s, s', out)
  {
    hide Receipts410, OwedFor, Ascending, QueueAll, TopicsAgree, PushAgrees;
    DroppedReceipts(s, agents, chans, s', out);
  }

  /** `delete_subscription`: an existing channel goes with its push id and its messages. */
  lemma DropChannelMeans(s: State, uaid: string, ch: string, s': State, a: Answer)
    requires Valid(s) && Step(s, DeleteSubscription(uaid, ch), s', a)
    ensures a.Owed? && Receipts410(s, s', a.queued)
    ensures Left(s, {}, if (uaid, ch) in s.channels then {(uaid, ch)} else {}, s')
  {
    hide Receipts410, Left, Dropped, Valid;
    DroppedMeans(s, {}, {(uaid, ch)} * s.channels.Keys, s', a.queued);
    assert {(uaid, ch)} * s.channels.Keys == if (uaid, ch) in s.channels then {(uaid, ch)} else {};
  }

  /** `delete_user_agent`: the user agent goes with its channels and theirs. */
  lemma DropAgentMeans(s: State, uaid: string, s': State, a: Answer)
    requires Valid(s) && Step(s, DeleteUserAgent(uaid), s', a)
    ensures a.Owed? && Receipts410(s, s', a.queued)
    ensures Left(s, {uaid}, (set k | k in s.channels && k.0 == uaid), s')
  {
    hide Receipts410, Left, Dropped, Valid;
    DroppedMeans(s, {uaid}, ChannelsOf(s, {uaid}), s', a.queued);
    assert ChannelsOf(s, {uaid}) == set k | k in s.channels && k.0 == uaid;
  }

  /** `expire_user_agents`: those last seen before the cutoff go, and are counted. */
  lemma ExpireMeans(s: State, cutoff: nat, s': State, a: Answer)
    requires Valid(s) && Step(s, ExpireUserAgents(cutoff), s', a)
    ensures a.Swept? && Receipts410(s, s', a.queued)
    ensures var stale := set u | u in s.userAgents && s.userAgents[u].lastSeen < cutoff;
            a.count == |stale| && Left(s, stale, (set k | k in s.channels && k.0 in stale), s')
  {
    hide Receipts410, Left, Dropped, Valid;
    var stale := set u | u in s.userAgents && s.userAgents[u].lastSeen < cutoff;
    assert stale == Stale(s, cutoff) && ChannelsOf(s, stale) == set k | k in s.channels && k.0 in stale;
    DroppedMeans(s, stale, ChannelsOf(s, stale), s', a.queued);
  }

  // -- Messages -------------------------------------------------------------

  /** `insert_message`: what had the same user agent, channel and topic goes, and nothing else does. */
  lemma InsertMeans(s: State, m: Message, s': State, a: Answer)
    requires Valid(s) && m.id !in s.messages && Step(s, InsertMessage(m), s', a)
    ensures m.id in s'.messages && s'.messages[m.id] == m
    ensures forall id :: id != m.id ==>
              (id in s'.messages <==>
                 id in s.messages
                 && !(m.topic.Some? && s.messages[id].topic == m.topic
                      && s.messages[id].uaid == m.uaid && s.messages[id].channelId == m.channelId))
    ensures forall id :: id != m.id && id in s'.messages ==> s'.messages[id] == s.messages[id]
    ensures s'.receipts == s.receipts && s'.userAgents == s.userAgents && s'.channels == s.channels
  {
    hide PushAgrees, QueuesAgree;
    forall id | id in s.messages && m.topic.Some? && s.messages[id].topic == m.topic
      && s.messages[id].uaid == m.uaid && s.messages[id].channelId == m.channelId
      ensures SlotOf(m).value in s.topics && s.topics[SlotOf(m).value] == id
    {
      assert SlotOf(s.messages[id]) == SlotOf(m);
    }
  }

  /** `delete_message`: the message goes and is returned, unless it is not the owner's. */
  lemma DeleteMeans(s: State, id: string, owner: Option<(string, string)>, s': State, a: Answer)
    requires Step(s, DeleteMessage(id, owner), s', a)
    ensures var mine := id in s.messages
              && (owner.Some? ==> owner.value == (s.messages[id].uaid, s.messages[id].channelId));
            a == Found(if mine then Some(s.messages[id]) else None)
            && s'.messages == (if mine then s.messages - {id} else s.messages)
            && s'.receipts == s.receipts && s'.channels == s.channels && s'.userAgents == s.userAgents
  {
  }

  /** `pending`: unexpired messages of the user agent by acceptance time and id, all of them up to the limit. */
  lemma PendingMeans(s: State, uaid: string, now: nat, limit: nat, s': State, a: Answer)
    requires Step(s, Pending(uaid, now, limit), s', a)
    ensures s' == s && a.Messages? && |a.batch| <= limit
    ensures forall m :: m in a.batch ==>
              m.id in s.messages && s.messages[m.id] == m && m.uaid == uaid && m.expiry > now
    ensures forall i, j :: 0 <= i < j < |a.batch| ==>
              a.batch[i].accepted < a.batch[j].accepted
              || (a.batch[i].accepted == a.batch[j].accepted && Below(a.batch[i].id, a.batch[j].id))
    ensures forall id :: id in s.messages && s.messages[id].id == id ==>
              var m := s.messages[id];
              m.uaid == uaid && m.expiry > now && m !in a.batch ==>
                |a.batch| == limit
                && forall i :: 0 <= i < |a.batch| ==>
                     a.batch[i].accepted < m.accepted
                     || (a.batch[i].accepted == m.accepted && Below(a.batch[i].id, m.id))
  {
    hide Older, OldestFirst;
    forall i, j | 0 <= i < j < |a.batch| ensures Older(a.batch[i], a.batch[j]) {
      OldestAt(a.batch, i, j);
    }
    forall id | id in s.messages && s.messages[id].id == id && s.messages[id].uaid == uaid
      && s.messages[id].expiry > now && s.messages[id] !in a.batch
      ensures |a.batch| == limit && forall i :: 0 <= i < |a.batch| ==> Older(a.batch[i], s.messages[id])
    {
      assert Due(s.messages, uaid, now, s.messages[id]);
    }
    OlderMeans();
  }

  lemma OldestAt(list: seq<Message>, i: nat, j: nat)
    requires OldestFirst(list) && i < j < |list|
    ensures Older(list[i], list[j])
  {
  }

  lemma OlderMeans()
    ensures forall x, y :: Older(x, y) <==>
              x.accepted < y.accepted || (x.accepted == y.accepted && Below(x.id, y.id))
  {
  }

  // -- User agents and channels ---------------------------------------------

  /** `touch_user_agent`: the recorded time becomes the later of the two. */
  lemma TouchMeans(s: State, uaid: string, now: nat, s': State, a: Answer)
    requires Step(s, TouchUserAgent(uaid, now), s', a)
    ensures a == Flag(uaid in s.userAgents) && s'.userAgents.Keys == s.userAgents.Keys
    ensures forall u :: u in s.userAgents && u != uaid ==> s'.userAgents[u] == s.userAgents[u]
    ensures uaid in s.userAgents ==>
              var was, ua := s.userAgents[uaid], s'.userAgents[uaid];
              ua == UserAgent(was.uaid, was.bridge, ua.lastSeen)
              && ua.lastSeen >= was.lastSeen && ua.lastSeen >= now && ua.lastSeen in {was.lastSeen, now}
    ensures s' == s.(userAgents := s'.userAgents)
  {
  }

  /** `update_bridge_token`: only the token of an existing bridged user agent. */
  lemma TokenMeans(s: State, uaid: string, token: string, s': State, a: Answer)
    requires Step(s, UpdateBridgeToken(uaid, token), s', a)
    ensures a == Flag(uaid in s.userAgents && s.userAgents[uaid].bridge.Some?)
    ensures s'.userAgents.Keys == s.userAgents.Keys && s' == s.(userAgents := s'.userAgents)
    ensures forall u :: u in s.userAgents && !(u == uaid && s.userAgents[u].bridge.Some?) ==>
              s'.userAgents[u] == s.userAgents[u]
    ensures uaid in s.userAgents && s.userAgents[uaid].bridge.Some? ==>
              var was := s.userAgents[uaid];
              var address := BridgeAddress(was.bridge.value.bridge, was.bridge.value.appId, token);
              s'.userAgents[uaid] == UserAgent(was.uaid, Some(address), was.lastSeen)
  {
  }

  /** A push id leads to the one channel that carries it. */
  lemma PushMeans(s: State, push: string, s': State, a: Answer, sub: Subscription)
    requires Valid(s) && Step(s, SubscriptionByPush(push), s', a)
    ensures s' == s && a.Sub?
    ensures a == Sub(Some(sub)) <==>
            (sub.uaid, sub.channelId) in s.channels && s.channels[(sub.uaid, sub.channelId)] == sub
            && sub.push == push
  {
    hide TopicsAgree, QueuesAgree;
  }

  // -- Receipts and routes --------------------------------------------------

  /** `enqueue_receipt`: one more receipt in its queue, under a number above all earlier ones. */
  lemma EnqueueMeans(s: State, r: Receipt, s': State, a: Answer)
    requires Valid(s) && Step(s, EnqueueReceipt(r), s', a)
    ensures a.Number? && (a.n.Some? <==> r.rsub in s.receipts) && (a.n.None? ==> s' == s)
    ensures a.n.Some? ==>
              (forall rsub, n :: rsub in s.receipts && n in s.receipts[rsub] ==> n < a.n.value)
              && s'.receipts.Keys == s.receipts.Keys && s'.messages == s.messages
              && (forall rsub :: rsub in s.receipts && rsub != r.rsub ==> s'.receipts[rsub] == s.receipts[rsub])
              && s'.receipts[r.rsub].Keys == s.receipts[r.rsub].Keys + {a.n.value}
              && s'.receipts[r.rsub][a.n.value] == r
              && (forall n :: n in s.receipts[r.rsub] ==> s'.receipts[r.rsub][n] == s.receipts[r.rsub][n])
  {
    hide Purged, Dropped, Inserted, Deleted, Touched, Retokened, IsPending, IsReading, ListsSubscriptions;
    hide TopicsAgree, PushAgrees;
  }

  /** `queued_receipts`: the queue by increasing number, nothing for an unknown subscription. */
  lemma ReadingMeans(s: State, rsub: string, s': State, a: Answer)
    requires Step(s, QueuedReceipts(rsub), s', a)
    ensures s' == s && a.Reading?
    ensures forall i, j :: 0 <= i < j < |a.receipts| ==> a.receipts[i].0 < a.receipts[j].0
    ensures forall n, r ::
              (n, r) in a.receipts <==> rsub in s.receipts && n in s.receipts[rsub] && s.receipts[rsub][n] == r
  {
  }

  /** `delete_receipt`: at most that one number goes. */
  lemma TakeMeans(s: State, rsub: string, n: nat, s': State, a: Answer, q: string, k: nat)
    requires Step(s, DeleteReceipt(rsub, n), s', a)
    ensures s'.receipts.Keys == s.receipts.Keys && s' == s.(receipts := s'.receipts)
    ensures q in s.receipts ==> (k in s'.receipts[q] <==> k in s.receipts[q] && !(q == rsub && k == n))
    ensures q in s.receipts && k in s'.receipts[q] ==> s'.receipts[q][k] == s.receipts[q][k]
  {
    hide Purged, Dropped, Inserted, Deleted, Touched, Retokened, IsPending, Enqueued, IsReading, ListsSubscriptions;
    assert rsub !in s.receipts ==> s' == s;
    assert rsub in s.receipts ==> s'.receipts == s.receipts[rsub := s.receipts[rsub] - {n}];
  }

  /** `clear_route`: the route goes if it names the node; no other route ever does. */
  lemma ClearMeans(s: State, to: Recipient, node: string, s': State, a: Answer)
    requires Step(s, ClearRoute(to, node), s', a)
    ensures a == Flag(to in s.routes && s.routes[to] == node) && s' == s.(routes := s'.routes)
    ensures forall r :: r in s'.routes <==> r in s.routes && !(r == to && s.routes[r] == node)
    ensures forall r :: r in s'.routes ==> s'.routes[r] == s.routes[r]
  {
    hide Purged, Dropped, Inserted, Deleted, Touched, Retokened, IsPending, Enqueued, IsReading, ListsSubscriptions;
  }

  // -- What is written is read ----------------------------------------------

  /** A created user agent is read back, and every other as before. */
  lemma AgentReads(s: State, ua: UserAgent, s': State, a: Answer, uaid: string, t: State, b: Answer, was: Answer)
    requires Step(s, CreateUserAgent(ua), s', a) && Step(s', ReadUserAgent(uaid), t, b)
    requires Step(s, ReadUserAgent(uaid), s, was)
    ensures t == s' && b == if uaid == ua.uaid then Agent(Some(ua)) else was
    ensures was.Agent? && (was.agent.None? <==> uaid !in s.userAgents)
    ensures uaid in s.userAgents ==> was.agent == Some(s.userAgents[uaid])
  {
  }

  /** A created subscription is read by its channel and by its push id, and listed once with the others. */
  lemma ChannelReads(s: State, sub: Subscription, s': State, a: Answer, list: seq<Subscription>, t: State)
    requires Valid(s) && Permitted(s, CreateSubscription(sub)) && Step(s, CreateSubscription(sub), s', a)
    requires Step(s', Subscriptions(sub.uaid), t, Subs(list))
    ensures a == Sub(Some(sub))
    ensures Step(s', ReadChannel(sub.uaid, sub.channelId), s', Sub(Some(sub)))
    ensures Step(s', SubscriptionByPush(sub.push), s', Sub(Some(sub)))
    ensures forall x :: x in list <==>
              x == sub || (x.uaid == sub.uaid && (x.uaid, x.channelId) in s.channels
                           && s.channels[(x.uaid, x.channelId)] == x)
    ensures forall i, j :: 0 <= i < j < |list| ==> list[i] != list[j]
  {
    hide Purged, Dropped, Inserted, Deleted, Touched, Retokened, IsPending, Enqueued, IsReading;
    hide TopicsAgree, QueuesAgree;
  }

  /** A created receipt subscription exists with an empty queue; a deleted one is gone; no other is touched. */
  lemma QueueReads(s: State, rsub: string, s': State, a: Answer, t: State, b: Answer, other: string)
    requires Step(s, CreateReceiptSub(rsub), s', a) && Step(s', DeleteReceiptSub(rsub), t, b)
    ensures rsub in s'.receipts && s'.receipts[rsub] == map[] && Step(s', ReceiptSubExists(rsub), s', Flag(true))
    ensures b == Flag(true) && rsub !in t.receipts && Step(t, ReceiptSubExists(rsub), t, Flag(false))
    ensures other != rsub ==>
              (other in s.receipts <==> other in s'.receipts) && (other in s.receipts <==> other in t.receipts)
              && (other in s.receipts ==>
                    s'.receipts[other] == s.receipts[other] && t.receipts[other] == s.receipts[other])
    ensures t.messages == s.messages && t.routes == s.routes && t.last == s.last
  {
    hide Purged, Dropped, Inserted, Deleted, Touched, Retokened, IsPending, Enqueued, IsReading, ListsSubscriptions;
  }

  /** A route set is the route read, and the answer is the route read before; no other route changes. */
  lemma RouteReads(s: State, to: Recipient, node: string, s': State, a: Answer, other: Recipient)
    requires Step(s, SetRoute(to, node), s', a)
    ensures Step(s', ReadRoute(to), s', Node(Some(node))) && Step(s, ReadRoute(to), s, a)
    ensures other != to ==> forall b :: Step(s, ReadRoute(other), s, b) <==> Step(s', ReadRoute(other), s', b)
    ensures a == Node(None) <==> to !in s.routes
    ensures to in s.routes ==> a == Node(Some(s.routes[to]))
  {
    hide Purged, Dropped, Inserted, Deleted, Touched, Retokened, IsPending, Enqueued, IsReading, ListsSubscriptions;
  }
}
