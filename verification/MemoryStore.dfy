/**
 The store held in maps that its methods change in place; the lock around it makes every call one step.
 Every method is proved to take the abstract state where `StoreSpec.Step` says.
 */
module MemoryStore {
  import opened Prelude
  import opened Types
  import opened StoreSpec
  import opened Sequence

  lemma AgentChannels(s: State, uaid: string)
    ensures ChannelsOf(s, {uaid}) == set k | k in s.channels && k.0 == uaid
  {
  }

  /** An insert, case by case: no topic, a free topic slot, or one that is taken. */
  lemma InsertedParts(s: State, m: Message)
    ensures m.topic.None? ==> Inserted(s, m) == s.(messages := s.messages[m.id := m])
    ensures m.topic.Some? ==>
      var slot := (m.uaid, m.channelId, m.topic.value);
      var kept := if slot in s.topics then s.messages - {s.topics[slot]} else s.messages;
      Inserted(s, m) == s.(topics := s.topics[slot := m.id], messages := kept[m.id := m])
  {
  }

  class MemoryStore {
    var userAgents: map<string, UserAgent>
    var channels: map<ChannelKey, Subscription>
    var push: map<string, ChannelKey>
    var messages: map<string, Message>
    var topics: map<TopicSlot, string>
    var receipts: map<string, Queue>
    var routes: map<Recipient, string>
    /** The static counter behind `next_seq`. */
    var last: nat

    function State(): State
      reads this
    {
      StoreSpec.State(userAgents, channels, push, messages, topics, receipts, routes, last)
    }

    ghost predicate Valid()
      reads this
    {
      StoreSpec.Valid(State())
    }

    constructor ()
      ensures Valid() && State() == EMPTY
    {
      userAgents, channels, push, messages := map[], map[], map[], map[];
      topics, receipts, routes, last := map[], map[], map[], 0;
    }

    // -- Helpers of `State` -------------------------------------------------

    /** `next_seq` under a clock that may show anything. */
    method NextNumber() returns (n: nat)
      modifies `last
      ensures n == last > old(last)
    {
      var nowMs: nat := *;
      n := NextSeq(last, nowMs);
      last := n;
    }

    /** `remove_message`: both maps forget the message. */
    method RemoveMessage(id: string) returns (r: Option<Message>)
      requires TopicsAgree(State())
      modifies `messages, `topics
      ensures r == Lookup(old(messages), id)
      ensures State() == if r.Some? then Without(old(State()), {id}) else old(State())
    {
      if id !in messages {
        return None;
      }
      var m := messages[id];
      messages := messages - {id};
      if m.topic.Some? {
        topics := topics - {(m.uaid, m.channelId, m.topic.value)};
      }
      assert topics == Without(old(State()), {id}).topics;
      r := Some(m);
    }

    /** `owe_410`: queue a 410 if it was asked for and its receipt subscription exists. */
    method Owe410(m: Message) returns (r: Option<Numbered>)
      modifies `receipts, `last
      ensures r.Some? <==> m.rsub.Some? && m.rsub.value in old(State()).receipts
      ensures match r
              case None => State() == old(State())
              case Some((n, receipt)) =>
                n > old(last) && receipt == ReceiptFor(m, 410) && State() == Enqueued(old(State()), n, receipt)
    {
      if m.rsub.None? || m.rsub.value !in receipts {
        return None;
      }
      var receipt := Receipt(m.rsub.value, m.id, 410);
      var n := NextNumber();
      var queue: Queue := receipts[m.rsub.value];
      receipts := receipts[m.rsub.value := queue[n := receipt]];
      r := Some((n, receipt));
    }

    /** One message removed and its 410 queued: a purge of one. */
    method PurgeOne(id: string) returns (out: seq<Numbered>)
      requires Valid() && id in messages
      modifies `messages, `topics, `receipts, `last
      ensures Valid() && Purged(old(State()), {id}, State(), out)
    {
      ghost var s := State();
      var m := RemoveMessage(id);
      var r := Owe410(m.value);
      out := if r.Some? then [r.value] else [];
      PurgedOne(s, id, State(), out);
      PurgedKeepsValid(s, {id}, State(), out);
    }

    /** The removal loop shared by the deletes and the reaper, in any order of ids. */
    method PurgeAll(ids: set<string>) returns (out: seq<Numbered>)
      requires Valid() && ids <= messages.Keys
      modifies `messages, `topics, `receipts, `last
      ensures Valid() && Purged(old(State()), ids, State(), out)
    {
      hide StoreSpec.Valid, Purged;
      var todo := ids;
      out := [];
      PurgedNothing(State());
      assert ids - ids == {};
      while todo != {}
        invariant Valid() && todo <= ids && todo <= messages.Keys
        invariant Purged(old(State()), ids - todo, State(), out)
        decreases |todo|
      {
        var id :| id in todo;
        ghost var s := State();
        ghost var before := out;
        var more := PurgeOne(id);
        PurgedMessages(s, {id}, State(), more);
        PurgedCompose(old(State()), ids - todo, s, before, {id}, State(), more);
        assert ids - todo + {id} == ids - (todo - {id});
        out := out + more;
        todo := todo - {id};
      }
      assert ids - {} == ids;
    }

    /** `remove_subscription`. */
    method RemoveSubscription(uaid: string, channelId: string) returns (out: seq<Numbered>)
      requires Valid()
      modifies this
      ensures Valid() && Dropped(old(State()), {}, {(uaid, channelId)} * old(channels).Keys, State(), out)
    {
      hide Purged;
      var key := (uaid, channelId);
      ghost var s := State();
      if key !in channels {
        DroppedNothing(s);
        assert {key} * channels.Keys == {};
        return [];
      }
      assert {key} * channels.Keys == {key};
      var sub := channels[key];
      channels := channels - {key};
      push := push - {sub.push};
      OneOwnerGone(s, key, State());
      var ids := set id | id in messages && messages[id].uaid == uaid && messages[id].channelId == channelId;
      assert ids == MessagesOf(s, {key});
      out := PurgeAll(ids);
    }

    /** One more channel of a user agent whose channels `done` are gone. */
    method RemoveNext(
      k: ChannelKey, ghost s: StoreSpec.State, ghost uaid: string, ghost done: set<ChannelKey>,
      ghost out: seq<Numbered>)
      returns (more: seq<Numbered>)
      requires Valid() && k in channels && Dropped(s, {uaid}, done, State(), out)
      modifies this
      ensures Valid() && Dropped(s, {uaid}, done + {k}, State(), out + more) && channels == old(channels) - {k}
    {
      hide Dropped, StoreSpec.Valid;
      more := RemoveSubscription(k.0, k.1);
      OneMoreChannel(s, uaid, done, old(State()), out, k, State(), more);
    }

    /** `remove_user_agent`: the user agent, then each of its channels. */
    method RemoveUserAgent(uaid: string) returns (out: seq<Numbered>)
      requires Valid()
      modifies this
      ensures Valid() && Dropped(old(State()), {uaid}, ChannelsOf(old(State()), {uaid}), State(), out)
    {
      hide Dropped, StoreSpec.Valid, ChannelsOf;
      ghost var s := State();
      ghost var all := ChannelsOf(s, {uaid});
      AgentChannels(s, uaid);
      AgentGoneKeepsValid(s, uaid);
      userAgents := userAgents - {uaid};
      var todo := set k | k in channels && k.0 == uaid;
      out := [];
      DroppedAgent(s, uaid, State());
      assert all - todo == {};
      while todo != {}
        invariant Valid() && todo <= all && todo <= channels.Keys
        invariant Dropped(s, {uaid}, all - todo, State(), out)
        decreases |todo|
      {
        var k :| k in todo;
        assert all - todo + {k} == all - (todo - {k});
        var more := RemoveNext(k, s, uaid, all - todo, out);
        out := out + more;
        todo := todo - {k};
      }
      assert all - {} == all;
    }

    // -- The trait ----------------------------------------------------------

    method CreateUserAgent(ua: UserAgent)
      requires Valid()
      modifies `userAgents
      ensures Valid() && Step(old(State()), Call.CreateUserAgent(ua), State(), Done)
    {
      hide StoreSpec.Valid;
      ghost var s := State();
      userAgents := userAgents[ua.uaid := ua];
      StepKeepsValid(s, Call.CreateUserAgent(ua), State(), Done);
    }

    method TouchUserAgent(uaid: string, now: nat) returns (known: bool)
      requires Valid()
      modifies `userAgents
      ensures Valid() && Step(old(State()), Call.TouchUserAgent(uaid, now), State(), Flag(known))
    {
      hide StoreSpec.Valid;
      ghost var s := State();
      known := uaid in userAgents;
      if known {
        var ua := userAgents[uaid];
        userAgents := userAgents[uaid := ua.(lastSeen := if ua.lastSeen < now then now else ua.lastSeen)];
      }
      StepKeepsValid(s, Call.TouchUserAgent(uaid, now), State(), Flag(known));
    }

    method UpdateBridgeToken(uaid: string, token: string) returns (bridged: bool)
      requires Valid()
      modifies `userAgents
      ensures Valid() && Step(old(State()), Call.UpdateBridgeToken(uaid, token), State(), Flag(bridged))
    {
      hide StoreSpec.Valid;
      ghost var s := State();
      bridged := uaid in userAgents && userAgents[uaid].bridge.Some?;
      if bridged {
        var ua := userAgents[uaid];
        userAgents := userAgents[uaid := ua.(bridge := Some(ua.bridge.value.(token := token)))];
      }
      StepKeepsValid(s, Call.UpdateBridgeToken(uaid, token), State(), Flag(bridged));
    }

    method DeleteUserAgent(uaid: string) returns (queued: seq<Numbered>)
      requires Valid()
      modifies this
      ensures Valid() && Step(old(State()), Call.DeleteUserAgent(uaid), State(), Owed(queued))
    {
      queued := RemoveUserAgent(uaid);
    }

    method ExpireUserAgents(cutoff: nat) returns (count: nat, queued: seq<Numbered>)
      requires Valid()
      modifies this
      ensures Valid() && Step(old(State()), Call.ExpireUserAgents(cutoff), State(), Swept(count, queued))
    {
      hide Dropped, StoreSpec.Valid;
      ghost var s := State();
      var stale := set u | u in userAgents && userAgents[u].lastSeen < cutoff;
      assert stale == Stale(s, cutoff);
      count := |stale|;
      var todo := stale;
      queued := [];
      DroppedNothing(s);
      assert ChannelsOf(s, stale - todo) == {} && stale - todo == {};
      while todo != {}
        invariant Valid() && todo <= stale
        invariant Dropped(s, stale - todo, ChannelsOf(s, stale - todo), State(), queued)
        decreases |todo|
      {
        var u :| u in todo;
        ghost var mid := State();
        ghost var before := queued;
        var more := RemoveUserAgent(u);
        OneMoreAgent(s, stale - todo, mid, before, u, State(), more);
        assert stale - todo + {u} == stale - (todo - {u});
        queued := queued + more;
        todo := todo - {u};
      }
      assert stale - {} == stale;
    }

    method Subscriptions(uaid: string) returns (list: seq<Subscription>)
      requires Valid()
      ensures Step(State(), Call.Subscriptions(uaid), State(), Subs(list))
    {
      var todo := set k | k in channels && k.0 == uaid;
      ghost var all := todo;
      list := [];
      while todo != {}
        invariant todo <= all
        invariant forall sub :: sub in list <==>
          (sub.uaid, sub.channelId) in all - todo && channels[(sub.uaid, sub.channelId)] == sub
        invariant forall i, j :: 0 <= i < j < |list| ==> list[i].channelId != list[j].channelId
        decreases |todo|
      {
        var k :| k in todo;
        var sub := channels[k];
        forall i | 0 <= i < |list| ensures list[i].channelId != sub.channelId {
          assert list[i] in list;
        }
        list := list + [sub];
        todo := todo - {k};
      }
    }

    method CreateSubscription(sub: Subscription)
      requires Valid() && Permitted(State(), Call.CreateSubscription(sub))
      modifies `push, `channels
      ensures Valid() && Step(old(State()), Call.CreateSubscription(sub), State(), Sub(Some(sub)))
    {
      hide StoreSpec.Valid;
      ghost var s := State();
      var key := (sub.uaid, sub.channelId);
      push := push[sub.push := key];
      channels := channels[key := sub];
      StepKeepsValid(s, Call.CreateSubscription(sub), State(), Sub(Some(sub)));
    }

    method SubscriptionByPush(id: string) returns (sub: Option<Subscription>)
      requires Valid()
      ensures Step(State(), Call.SubscriptionByPush(id), State(), Sub(sub))
    {
      sub := if id in push then Lookup(channels, push[id]) else None;
    }

    method DeleteSubscription(uaid: string, channelId: string) returns (queued: seq<Numbered>)
      requires Valid()
      modifies this
      ensures Valid() && Step(old(State()), Call.DeleteSubscription(uaid, channelId), State(), Owed(queued))
    {
      queued := RemoveSubscription(uaid, channelId);
    }

    /** The new message is stored; what held its slot until now goes, and nobody is told. */
    method InsertMessage(m: Message)
      requires Valid() && Permitted(State(), Call.InsertMessage(m))
      modifies `messages, `topics
      ensures Valid() && Step(old(State()), Call.InsertMessage(m), State(), Done)
    {
      hide StoreSpec.Valid, Inserted;
      ghost var s := State();
      InsertedParts(s, m);
      if m.topic.Some? {
        var slot := (m.uaid, m.channelId, m.topic.value);
        var before := Lookup(topics, slot);
        topics := topics[slot := m.id];
        if before.Some? {
          messages := messages - {before.value};
        }
      }
      messages := messages[m.id := m];
      StepKeepsValid(s, Call.InsertMessage(m), State(), Done);
    }

    method Pending(uaid: string, now: nat, limit: nat) returns (batch: seq<Message>)
      requires Valid()
      ensures Step(State(), Call.Pending(uaid, now, limit), State(), Messages(batch))
    {
      var todo := set id | id in messages && messages[id].uaid == uaid && messages[id].expiry > now;
      ghost var all := todo;
      var out: seq<Message> := [];
      while todo != {}
        invariant todo <= all
        invariant forall m :: m in out <==> m.id in all - todo && messages[m.id] == m
        invariant forall i, j :: 0 <= i < j < |out| ==> out[i].id != out[j].id
        decreases |todo|
      {
        var id :| id in todo;
        forall i | 0 <= i < |out| ensures out[i].id != id {
          assert out[i] in out;
        }
        out := out + [messages[id]];
        todo := todo - {id};
      }
      out := SortByAge(out);
      batch := if |out| > limit then out[..limit] else out;
      TruncatedIsPending(messages, uaid, now, limit, out);
    }

    method DeleteMessage(id: string, owner: Option<ChannelKey>) returns (m: Option<Message>)
      requires Valid()
      modifies `messages, `topics
      ensures Valid() && Step(old(State()), Call.DeleteMessage(id, owner), State(), Found(m))
    {
      ghost var s := State();
      if id in messages && (owner.None? || (messages[id].uaid, messages[id].channelId) == owner.value) {
        m := RemoveMessage(id);
      } else {
        m := None;
      }
    }

    method CreateReceiptSub(rsub: string)
      requires Valid()
      modifies `receipts
      ensures Valid() && Step(old(State()), Call.CreateReceiptSub(rsub), State(), Done)
    {
      hide StoreSpec.Valid;
      ghost var s := State();
      receipts := receipts[rsub := map[]];
      StepKeepsValid(s, Call.CreateReceiptSub(rsub), State(), Done);
    }

    method DeleteReceiptSub(rsub: string) returns (existed: bool)
      requires Valid()
      modifies `receipts
      ensures Valid() && Step(old(State()), Call.DeleteReceiptSub(rsub), State(), Flag(existed))
    {
      hide StoreSpec.Valid;
      ghost var s := State();
      existed := rsub in receipts;
      receipts := receipts - {rsub};
      StepKeepsValid(s, Call.DeleteReceiptSub(rsub), State(), Flag(existed));
    }

    method EnqueueReceipt(r: Receipt) returns (n: Option<nat>)
      requires Valid()
      modifies `receipts, `last
      ensures Valid() && Step(old(State()), Call.EnqueueReceipt(r), State(), Number(n))
    {
      hide StoreSpec.Valid;
      ghost var s := State();
      n := None;
      if r.rsub in receipts {
        var number := NextNumber();
        var queue: Queue := receipts[r.rsub];
        receipts := receipts[r.rsub := queue[number := r]];
        n := Some(number);
      }
      StepKeepsValid(s, Call.EnqueueReceipt(r), State(), Number(n));
    }

    /** The ordered map of the queue, read from its least number up. */
    method QueuedReceipts(rsub: string) returns (list: seq<Numbered>)
      requires Valid()
      ensures Step(State(), Call.QueuedReceipts(rsub), State(), Reading(list))
    {
      var queue: Queue := if rsub in receipts then receipts[rsub] else map[];
      list := ReadQueue(queue);
    }

    method DeleteReceipt(rsub: string, n: nat)
      requires Valid()
      modifies `receipts
      ensures Valid() && Step(old(State()), Call.DeleteReceipt(rsub, n), State(), Done)
    {
      hide StoreSpec.Valid;
      ghost var s := State();
      if rsub in receipts {
        var queue: Queue := receipts[rsub];
        receipts := receipts[rsub := queue - {n}];
      }
      StepKeepsValid(s, Call.DeleteReceipt(rsub, n), State(), Done);
    }

    method Reap(now: nat) returns (queued: seq<Numbered>)
      requires Valid()
      modifies `messages, `topics, `receipts, `last
      ensures Valid() && Step(old(State()), Call.Reap(now), State(), Owed(queued))
    {
      var expired := set id | id in messages && messages[id].expiry <= now;
      assert expired == Expired(State(), now);
      queued := PurgeAll(expired);
    }

    method SetRoute(to: Recipient, node: string) returns (previous: Option<string>)
      requires Valid()
      modifies `routes
      ensures Valid() && Step(old(State()), Call.SetRoute(to, node), State(), Node(previous))
    {
      hide StoreSpec.Valid;
      ghost var s := State();
      previous := Lookup(routes, to);
      routes := routes[to := node];
      StepKeepsValid(s, Call.SetRoute(to, node), State(), Node(previous));
    }

    method ClearRoute(to: Recipient, node: string) returns (cleared: bool)
      requires Valid()
      modifies `routes
      ensures Valid() && Step(old(State()), Call.ClearRoute(to, node), State(), Flag(cleared))
    {
      hide StoreSpec.Valid;
      ghost var s := State();
      cleared := to in routes && routes[to] == node;
      if cleared {
        routes := routes - {to};
      }
      StepKeepsValid(s, Call.ClearRoute(to, node), State(), Flag(cleared));
    }

    // -- Whole runs ---------------------------------------------------------

    /** Any one call. Read-only calls look the maps up. */
    method Execute(c: Call) returns (a: Answer)
      requires Valid() && Permitted(State(), c)
      modifies this
      ensures Valid() && Step(old(State()), c, State(), a)
    {
      hide StoreSpec.Valid, Dropped, Purged, IsPending, IsReading, ListsSubscriptions;
      match c {
        case CreateUserAgent(ua) => CreateUserAgent(ua); a := Done;
        case ReadUserAgent(uaid) => a := Agent(Lookup(userAgents, uaid));
        case TouchUserAgent(uaid, now) => var known := TouchUserAgent(uaid, now); a := Flag(known);
        case UpdateBridgeToken(uaid, token) => var bridged := UpdateBridgeToken(uaid, token); a := Flag(bridged);
        case DeleteUserAgent(uaid) => var queued := DeleteUserAgent(uaid); a := Owed(queued);
        case ExpireUserAgents(cutoff) => var count, queued := ExpireUserAgents(cutoff); a := Swept(count, queued);
        case Subscriptions(uaid) => var list := Subscriptions(uaid); a := Subs(list);
        case ReadChannel(uaid, ch) => a := Sub(Lookup(channels, (uaid, ch)));
        case CreateSubscription(sub) => CreateSubscription(sub); a := Sub(Some(sub));
        case SubscriptionByPush(id) => var sub := SubscriptionByPush(id); a := Sub(sub);
        case DeleteSubscription(uaid, ch) => var queued := DeleteSubscription(uaid, ch); a := Owed(queued);
        case InsertMessage(m) => InsertMessage(m); a := Done;
        case Pending(uaid, now, limit) => var batch := Pending(uaid, now, limit); a := Messages(batch);
        case ReadMessage(id) => a := Found(Lookup(messages, id));
        case DeleteMessage(id, owner) => var m := DeleteMessage(id, owner); a := Found(m);
        case CreateReceiptSub(rsub) => CreateReceiptSub(rsub); a := Done;
        case ReceiptSubExists(rsub) => a := Flag(rsub in receipts);
        case DeleteReceiptSub(rsub) => var existed := DeleteReceiptSub(rsub); a := Flag(existed);
        case EnqueueReceipt(r) => var n := EnqueueReceipt(r); a := Number(n);
        case QueuedReceipts(rsub) => var list := QueuedReceipts(rsub); a := Reading(list);
        case DeleteReceipt(rsub, n) => DeleteReceipt(rsub, n); a := Done;
        case Reap(now) => var queued := Reap(now); a := Owed(queued);
        case SetRoute(to, node) => var previous := SetRoute(to, node); a := Node(previous);
        case ReadRoute(to) => a := Node(Lookup(routes, to));
        case ClearRoute(to, node) => var cleared := ClearRoute(to, node); a := Flag(cleared);
      }
    }

    /** A sequence of calls, one after the other. */
    method Replay(calls: seq<Call>) returns (answers: seq<Answer>, ghost trace: seq<StoreSpec.State>)
      requires Valid() && AllPermitted(State(), calls)
      modifies this
      ensures Valid() && IsTrace(calls, answers, trace) && trace[0] == old(State()) && trace[|calls|] == State()
    {
      hide StoreSpec.Valid, Step, Permitted;
      answers, trace := [], [State()];
      assert calls[0..] == calls;
      for i := 0 to |calls|
        invariant Valid() && AllPermitted(State(), calls[i..])
        invariant IsTrace(calls[..i], answers, trace) && trace[0] == old(State()) && trace[i] == State()
      {
        assert calls[i..][0] == calls[i] && calls[i..][1..] == calls[i + 1..];
        var a := Execute(calls[i]);
        TraceExtends(calls, answers, trace, i, State(), a);
        answers, trace := answers + [a], trace + [State()];
      }
      assert calls[..|calls|] == calls;
    }
  }

  /** Read a queue from its least number up. */
  method ReadQueue(queue: Queue) returns (list: seq<Numbered>)
    ensures IsReading(queue, list)
  {
    var todo := queue.Keys;
    list := [];
    while todo != {}
      invariant todo <= queue.Keys
      invariant forall i, j :: 0 <= i < j < |list| ==> list[i].0 < list[j].0
      invariant forall n, r :: (n, r) in list <==> n in queue.Keys - todo && queue[n] == r
      invariant forall i, n :: 0 <= i < |list| && n in todo ==> list[i].0 < n
      decreases |todo|
    {
      var least :| least in todo;
      var rest := todo - {least};
      while rest != {}
        invariant least in todo && rest <= todo
        invariant forall n :: n in todo && n !in rest ==> least <= n
        decreases |rest|
      {
        var n :| n in rest;
        rest := rest - {n};
        if n < least {
          least := n;
        }
      }
      var longer := list + [(least, queue[least])];
      forall n, r ensures (n, r) in longer <==> n in queue.Keys - (todo - {least}) && queue[n] == r {
        assert (n, r) in longer <==> (n, r) in list || (n, r) == (least, queue[least]);
      }
      list := longer;
      todo := todo - {least};
    }
  }
}
