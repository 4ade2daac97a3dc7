/**
 What the `Store` calls do, stated on one abstract state: the seven maps of the in-memory
 store and the process-wide sequence counter. Calls that queue receipts are relations,
 because the order in which a hash map is walked and the clock are not determined.
 */
module StoreSpec {
  import opened Prelude
  import opened Types

  type ChannelKey = (string, string)
  type TopicSlot = (string, string, string)
  type Queue = map<nat, Receipt>
  type Numbered = (nat, Receipt)

  datatype State = State(
    userAgents: map<string, UserAgent>,
    channels: map<ChannelKey, Subscription>,
    push: map<string, ChannelKey>,
    messages: map<string, Message>,
    topics: map<TopicSlot, string>,
    receipts: map<string, Queue>,
    routes: map<Recipient, string>,
    last: nat)

  const EMPTY := State(map[], map[], map[], map[], map[], map[], map[], 0)

  function ChannelOf(m: Message): ChannelKey {
    (m.uaid, m.channelId)
  }

  function SlotOf(m: Message): Option<TopicSlot> {
    if m.topic.Some? then Some((m.uaid, m.channelId, m.topic.value)) else None
  }

  // -- Index agreement ------------------------------------------------------

  /** Topic slots name exactly the stored messages with a topic, one per slot. */
  ghost predicate TopicsAgree(s: State) {
    (forall id :: id in s.messages ==> s.messages[id].id == id)
    && (forall id :: id in s.messages && s.messages[id].topic.Some? ==>
          SlotOf(s.messages[id]).value in s.topics && s.topics[SlotOf(s.messages[id]).value] == id)
    && (forall t :: t in s.topics ==>
          s.topics[t] in s.messages && SlotOf(s.messages[s.topics[t]]) == Some(t))
  }

  /** Push ids name exactly the channels that carry them. */
  ghost predicate PushAgrees(s: State) {
    (forall k :: k in s.channels ==>
       (s.channels[k].uaid, s.channels[k].channelId) == k
       && s.channels[k].push in s.push && s.push[s.channels[k].push] == k)
    && (forall p :: p in s.push ==> s.push[p] in s.channels && s.channels[s.push[p]].push == p)
  }

  ghost predicate QueuesAgree(s: State) {
    forall rsub, n :: rsub in s.receipts && n in s.receipts[rsub] ==>
      s.receipts[rsub][n].rsub == rsub && n <= s.last
  }

  ghost predicate Valid(s: State) {
    TopicsAgree(s) && PushAgrees(s) && QueuesAgree(s)
    && forall u :: u in s.userAgents ==> s.userAgents[u].uaid == u
  }

  // -- Receipts -------------------------------------------------------------

  predicate Ascending(last: nat, out: seq<Numbered>) {
    (forall i :: 0 <= i < |out| ==> last < out[i].0)
    && forall i, j :: 0 <= i < j < |out| ==> out[i].0 < out[j].0
  }

  function LastOf(last: nat, out: seq<Numbered>): nat {
    if |out| == 0 then last else out[|out| - 1].0
  }

  /** The queues after `out` is queued in order. */
  function QueueAll(q: map<string, Queue>, out: seq<Numbered>): map<string, Queue> {
    if |out| == 0 then q
    else
      var before := QueueAll(q, out[..|out| - 1]);
      var (n, r) := out[|out| - 1];
      if r.rsub in before then before[r.rsub := before[r.rsub][n := r]] else before
  }

  lemma {:induction false} QueueAllKeys(q: map<string, Queue>, out: seq<Numbered>)
    ensures QueueAll(q, out).Keys == q.Keys
  {
    if |out| > 0 {
      QueueAllKeys(q, out[..|out| - 1]);
    }
  }

  lemma {:induction false} QueueAllAppend(q: map<string, Queue>, a: seq<Numbered>, b: seq<Numbered>)
    ensures QueueAll(q, a + b) == QueueAll(QueueAll(q, a), b)
    decreases |b|
  {
    if |b| == 0 {
      assert a + b == a;
    } else {
      assert (a + b)[..|a + b| - 1] == a + b[..|b| - 1];
      QueueAllAppend(q, a, b[..|b| - 1]);
    }
  }

  /** The receipt `m` is owed with `status`. */
  function ReceiptFor(m: Message, status: nat): Receipt
    requires m.rsub.Some?
  {
    Receipt(m.rsub.value, m.id, status)
  }

  /** A 410 for `m` can be queued. */
  predicate Owes(s: State, m: Message) {
    m.rsub.Some? && m.rsub.value in s.receipts
  }

  /** `out` is one 410 for each of `gone` that asked for a receipt and can still get it. */
  ghost predicate OwedFor(s: State, gone: set<string>, out: seq<Numbered>) {
    (forall i :: 0 <= i < |out| ==>
       out[i].1.msgId in gone && out[i].1.msgId in s.messages
       && Owes(s, s.messages[out[i].1.msgId])
       && out[i].1 == ReceiptFor(s.messages[out[i].1.msgId], 410))
    && (forall i, j :: 0 <= i < j < |out| ==> out[i].1.msgId != out[j].1.msgId)
    && (forall id :: id in gone && id in s.messages && Owes(s, s.messages[id]) ==> Receipted(out, id))
  }

  ghost predicate Receipted(out: seq<Numbered>, id: string) {
    exists i :: 0 <= i < |out| && out[i].1.msgId == id
  }

  // -- Removal --------------------------------------------------------------

  function Without(s: State, gone: set<string>): State {
    s.(messages := s.messages - gone,
       topics := map t | t in s.topics && s.topics[t] !in gone :: s.topics[t])
  }

  /** The messages `gone` are removed with their topic slots, and their 410s queued. */
  ghost predicate Purged(s: State, gone: set<string>, s': State, out: seq<Numbered>) {
    gone <= s.messages.Keys
    && Ascending(s.last, out)
    && OwedFor(s, gone, out)
    && s' == Without(s, gone).(receipts := QueueAll(s.receipts, out), last := LastOf(s.last, out))
  }

  function WithoutOwners(s: State, agents: set<string>, chans: set<ChannelKey>): State {
    s.(userAgents := s.userAgents - agents,
       channels := s.channels - chans,
       push := map p | p in s.push && s.push[p] !in chans :: s.push[p])
  }

  function MessagesOf(s: State, chans: set<ChannelKey>): set<string> {
    set id | id in s.messages && ChannelOf(s.messages[id]) in chans
  }

  /** User agents and channels are removed, with the messages of the channels. */
  ghost predicate Dropped(s: State, agents: set<string>, chans: set<ChannelKey>, s': State, out: seq<Numbered>) {
    chans <= s.channels.Keys
    && Purged(WithoutOwners(s, agents, chans), MessagesOf(s, chans), s', out)
  }

  lemma PurgedKeepsValid(s: State, gone: set<string>, s': State, out: seq<Numbered>)
    requires Valid(s) && Purged(s, gone, s', out)
    ensures Valid(s')
  {
    QueueAllAgrees(s, out);
  }

  lemma {:induction false} QueueAllAgrees(s: State, out: seq<Numbered>)
    requires QueuesAgree(s) && Ascending(s.last, out)
    ensures QueuesAgree(s.(receipts := QueueAll(s.receipts, out), last := LastOf(s.last, out)))
    decreases |out|
  {
    if |out| > 0 {
      var front := out[..|out| - 1];
      var (n, r) := out[|out| - 1];
      QueueAllAgrees(s, front);
      var t := s.(receipts := QueueAll(s.receipts, front), last := LastOf(s.last, front));
      assert t.last < n;
      if r.rsub in t.receipts {
        EnqueuedKeepsQueues(t, n, r);
      } else {
        assert s.(receipts := QueueAll(s.receipts, out), last := n) == t.(last := n);
      }
    }
  }

  lemma DroppedKeepsValid(s: State, agents: set<string>, chans: set<ChannelKey>, s': State, out: seq<Numbered>)
    requires Valid(s) && Dropped(s, agents, chans, s', out)
    ensures Valid(s')
  {
    PurgedKeepsValid(WithoutOwners(s, agents, chans), MessagesOf(s, chans), s', out);
  }

  lemma PurgedNothing(s: State)
    ensures Purged(s, {}, s, [])
  {
    assert Without(s, {}) == s by {
      assert s.messages - {} == s.messages;
      assert (map t | t in s.topics && s.topics[t] !in {} :: s.topics[t]) == s.topics;
    }
  }

  lemma WithoutCompose(s: State, g: set<string>, h: set<string>)
    ensures Without(Without(s, g), h) == Without(s, g + h)
  {
    assert s.messages - g - h == s.messages - (g + h);
    assert Without(Without(s, g), h).topics == Without(s, g + h).topics;
  }

  lemma AscendingAppend(last: nat, a: seq<Numbered>, b: seq<Numbered>)
    requires Ascending(last, a) && Ascending(LastOf(last, a), b)
    ensures Ascending(last, a + b)
    ensures LastOf(last, a + b) == LastOf(LastOf(last, a), b)
  {
    var out := a + b;
    forall i, j | 0 <= i < j < |out| ensures out[i].0 < out[j].0 {
      if i < |a| <= j {
        assert a[i].0 <= LastOf(last, a) < b[j - |a|].0;
      }
    }
    forall i | 0 <= i < |out| ensures last < out[i].0 {}
  }

  /** Two removals in a row are one removal. */
  lemma PurgedCompose(
    s: State, g: set<string>, s1: State, a: seq<Numbered>, h: set<string>, s2: State, b: seq<Numbered>)
    requires Purged(s, g, s1, a) && Purged(s1, h, s2, b)
    ensures Purged(s, g + h, s2, a + b)
  {
    QueueAllAppend(s.receipts, a, b);
    QueueAllKeys(s.receipts, a);
    OwedCompose(s, g, s1, a, h, b);
    AscendingAppend(s.last, a, b);
    WithoutCompose(s, g, h);
    var queues := QueueAll(s.receipts, a);
    assert Without(s1, h) == Without(Without(s, g), h).(receipts := queues, last := s1.last);
  }

  lemma OwedCompose(s: State, g: set<string>, s1: State, a: seq<Numbered>, h: set<string>, b: seq<Numbered>)
    requires OwedFor(s, g, a) && OwedFor(s1, h, b)
    requires s1.messages == s.messages - g && s1.receipts.Keys == s.receipts.Keys
    ensures OwedFor(s, g + h, a + b)
  {
    var out := a + b;
    forall id | id in g + h && id in s.messages && Owes(s, s.messages[id]) ensures Receipted(out, id) {
      if id in g {
        assert Receipted(a, id);
        var i :| 0 <= i < |a| && a[i].1.msgId == id;
        assert out[i].1.msgId == id;
      } else {
        assert Receipted(b, id);
        var i :| 0 <= i < |b| && b[i].1.msgId == id;
        assert out[|a| + i].1.msgId == id;
      }
    }
  }

  /** Dropping in two goes is dropping at once. */
  lemma DroppedCompose(
    s: State, A: set<string>, C: set<ChannelKey>, s1: State, a: seq<Numbered>,
    B: set<string>, D: set<ChannelKey>, s2: State, b: seq<Numbered>)
    requires Dropped(s, A, C, s1, a) && Dropped(s1, B, D, s2, b)
    ensures Dropped(s, A + B, C + D, s2, a + b)
  {
    hide OwedFor, Ascending, LastOf, QueueAll;
    var both := WithoutOwners(s, A + B, C + D);
    var g, h := MessagesOf(s, C), MessagesOf(s1, D);
    assert g + h == MessagesOf(s, C + D);
    hide MessagesOf;
    OwnersCompose(s, A, C, B, D);
    PurgedOwners(WithoutOwners(s, A, C), g, s1, a, B, D);
    hide Purged;
    PurgedCompose(both, g, WithoutOwners(s1, B, D), a, h, s2, b);
  }

  /** Whether the owners are still there makes no difference to a removal. */
  lemma PurgedOwners(s: State, g: set<string>, s': State, a: seq<Numbered>, B: set<string>, D: set<ChannelKey>)
    requires Purged(s, g, s', a)
    ensures Purged(WithoutOwners(s, B, D), g, WithoutOwners(s', B, D), a)
  {
    hide Ascending, LastOf, QueueAll;
    OwnersCommute(s, g, B, D);
  }

  lemma OwnersCompose(s: State, A: set<string>, C: set<ChannelKey>, B: set<string>, D: set<ChannelKey>)
    ensures WithoutOwners(WithoutOwners(s, A, C), B, D) == WithoutOwners(s, A + B, C + D)
  {
    assert s.userAgents - A - B == s.userAgents - (A + B);
    assert s.channels - C - D == s.channels - (C + D);
    assert WithoutOwners(WithoutOwners(s, A, C), B, D).push == WithoutOwners(s, A + B, C + D).push;
  }

  /** Removing owners and removing messages do not interfere. */
  lemma OwnersCommute(s: State, g: set<string>, B: set<string>, D: set<ChannelKey>)
    ensures Without(WithoutOwners(s, B, D), g) == WithoutOwners(Without(s, g), B, D)
  {
  }

  // -- The calls ------------------------------------------------------------

  function Touched(s: State, uaid: string, now: nat): State {
    if uaid in s.userAgents then
      var ua := s.userAgents[uaid];
      s.(userAgents := s.userAgents[uaid := ua.(lastSeen := if ua.lastSeen < now then now else ua.lastSeen)])
    else s
  }

  predicate IsBridged(s: State, uaid: string) {
    uaid in s.userAgents && s.userAgents[uaid].bridge.Some?
  }

  function Retokened(s: State, uaid: string, token: string): State {
    if IsBridged(s, uaid) then
      var ua := s.userAgents[uaid];
      s.(userAgents := s.userAgents[uaid := ua.(bridge := Some(ua.bridge.value.(token := token)))])
    else s
  }

  function Inserted(s: State, m: Message): State {
    var kept := match SlotOf(m)
      case None => s.messages
      case Some(t) => if t in s.topics then s.messages - {s.topics[t]} else s.messages;
    s.(messages := kept[m.id := m],
       topics := if m.topic.Some? then s.topics[SlotOf(m).value := m.id] else s.topics)
  }

  /** The stored message `id`, if `owner` may delete it. */
  function Deletable(s: State, id: string, owner: Option<ChannelKey>): Option<Message> {
    if id in s.messages && (owner.None? || owner.value == ChannelOf(s.messages[id])) then Some(s.messages[id]) else None
  }

  function Deleted(s: State, id: string, owner: Option<ChannelKey>): State {
    if Deletable(s, id, owner).Some? then Without(s, {id}) else s
  }

  function Enqueued(s: State, n: nat, r: Receipt): State
    requires r.rsub in s.receipts
  {
    var q: Queue := s.receipts[r.rsub];
    s.(receipts := s.receipts[r.rsub := q[n := r]], last := n)
  }

  predicate Due(messages: map<string, Message>, uaid: string, now: nat, m: Message) {
    m.id in messages && messages[m.id] == m && m.uaid == uaid && m.expiry > now
  }

  /** `out` is the first `limit` unexpired messages of `uaid`, oldest first. */
  ghost predicate IsPending(messages: map<string, Message>, uaid: string, now: nat, limit: nat, out: seq<Message>) {
    OldestFirst(out)
    && |out| <= limit
    && (forall m :: m in out ==> Due(messages, uaid, now, m))
    && (forall m :: Due(messages, uaid, now, m) && m !in out ==>
          |out| == limit && forall i :: 0 <= i < |out| ==> Older(out[i], m))
  }

  /** `pending` has one answer. */
  lemma PendingUnique(
    messages: map<string, Message>, uaid: string, now: nat, limit: nat, a: seq<Message>, b: seq<Message>)
    requires IsPending(messages, uaid, now, limit, a) && IsPending(messages, uaid, now, limit, b)
    ensures a == b
  {
    NoLonger(messages, uaid, now, limit, a, b);
    NoLonger(messages, uaid, now, limit, b, a);
    PendingAgree(messages, uaid, now, limit, a, b, |a|);
    assert a == a[..|a|] && b == b[..|b|];
  }

  lemma NoLonger(
    messages: map<string, Message>, uaid: string, now: nat, limit: nat, a: seq<Message>, b: seq<Message>)
    requires IsPending(messages, uaid, now, limit, a) && IsPending(messages, uaid, now, limit, b)
    ensures |b| <= |a|
  {
    if |a| < |b| {
      PendingAgree(messages, uaid, now, limit, a, b, |a|);
      assert a == a[..|a|];
      var m := b[|a|];
      assert m in b;
      NotRepeated(b, |a|, a);
    }
  }

  lemma NotRepeated(list: seq<Message>, n: nat, front: seq<Message>)
    requires OldestFirst(list) && n < |list| && |front| == n && front == list[..n]
    ensures list[n] !in front
  {
    forall i | 0 <= i < n ensures front[i] != list[n] {
      OlderTotal(list[i], list[n]);
      OlderTotal(list[n], list[n]);
      assert Older(list[i], list[n]);
    }
  }

  lemma {:induction false} PendingAgree(
    messages: map<string, Message>, uaid: string, now: nat, limit: nat, a: seq<Message>, b: seq<Message>, n: nat)
    requires IsPending(messages, uaid, now, limit, a) && IsPending(messages, uaid, now, limit, b)
    requires n <= |a| && n <= |b|
    ensures a[..n] == b[..n]
  {
    if n > 0 {
      PendingAgree(messages, uaid, now, limit, a, b, n - 1);
      var x, y := a[n - 1], b[n - 1];
      assert x in a && y in b;
      if x != y {
        LaterThan(messages, uaid, now, limit, a, b, n - 1);
        LaterThan(messages, uaid, now, limit, b, a, n - 1);
        OlderTotal(x, y);
      }
      assert a[..n] == a[..n - 1] + [x] && b[..n] == b[..n - 1] + [y];
    }
  }

  /** Where two answers first differ, each has an older message than the other. */
  lemma LaterThan(
    messages: map<string, Message>, uaid: string, now: nat, limit: nat, a: seq<Message>, b: seq<Message>, n: nat)
    requires IsPending(messages, uaid, now, limit, a) && IsPending(messages, uaid, now, limit, b)
    requires n < |a| && n < |b| && a[..n] == b[..n] && a[n] != b[n]
    ensures Older(a[n], b[n])
  {
    var y := b[n];
    assert y in b;
    if y in a {
      var j :| 0 <= j < |a| && a[j] == y;
      if j < n {
        assert a[..n][j] == b[..n][j];
        OlderTotal(b[j], b[n]);
        OlderTotal(y, y);
      }
      assert j > n;
    }
  }

  /** A queue is read in sequence order. */
  ghost predicate IsReading(q: Queue, out: seq<Numbered>) {
    (forall i, j :: 0 <= i < j < |out| ==> out[i].0 < out[j].0)
    && (forall n, r :: (n, r) in out <==> n in q && q[n] == r)
  }

  /** A receipt queued under a number above all earlier ones is read last. */
  lemma EnqueuedReadsLast(q: Queue, out: seq<Numbered>, n: nat, r: Receipt)
    requires IsReading(q, out) && forall k :: k in q ==> k < n
    ensures IsReading(q[n := r], out + [(n, r)])
  {
    var longer, q' := out + [(n, r)], q[n := r];
    forall i, j | 0 <= i < j < |longer| ensures longer[i].0 < longer[j].0 {
      assert out[i] in out;
      assert (out[i].0, out[i].1) in out;
    }
    forall k, x ensures (k, x) in longer <==> k in q' && q'[k] == x {
      assert (k, x) in longer <==> (k, x) in out || (k, x) == (n, r);
    }
  }

  /** One call of the trait. Fresh identifiers and clock readings are inputs. */
  datatype Call =
    | CreateUserAgent(ua: UserAgent)
    | ReadUserAgent(uaid: string)
    | TouchUserAgent(uaid: string, now: nat)
    | UpdateBridgeToken(uaid: string, token: string)
    | DeleteUserAgent(uaid: string)
    | ExpireUserAgents(cutoff: nat)
    | Subscriptions(uaid: string)
    | ReadChannel(uaid: string, channelId: string)
    | CreateSubscription(sub: Subscription)
    | SubscriptionByPush(push: string)
    | DeleteSubscription(uaid: string, channelId: string)
    | InsertMessage(m: Message)
    | Pending(uaid: string, now: nat, limit: nat)
    | ReadMessage(id: string)
    | DeleteMessage(id: string, owner: Option<ChannelKey>)
    | CreateReceiptSub(rsub: string)
    | ReceiptSubExists(rsub: string)
    | DeleteReceiptSub(rsub: string)
    | EnqueueReceipt(r: Receipt)
    | QueuedReceipts(rsub: string)
    | DeleteReceipt(rsub: string, n: nat)
    | Reap(now: nat)
    | SetRoute(to: Recipient, node: string)
    | ReadRoute(to: Recipient)
    | ClearRoute(to: Recipient, node: string)

  datatype Answer =
    | Done
    | Flag(yes: bool)
    | Agent(agent: Option<UserAgent>)
    | Sub(found: Option<Subscription>)
    | Subs(list: seq<Subscription>)
    | Messages(batch: seq<Message>)
    | Found(message: Option<Message>)
    | Owed(queued: seq<Numbered>)
    | Swept(count: nat, queued: seq<Numbered>)
    | Number(n: Option<nat>)
    | Reading(receipts: seq<Numbered>)
    | Node(node: Option<string>)

  function Lookup<K, V>(m: map<K, V>, k: K): Option<V> {
    if k in m then Some(m[k]) else None
  }

  /** `list` holds each subscription of `uaid` once, in any order. */
  ghost predicate ListsSubscriptions(s: State, uaid: string, list: seq<Subscription>) {
    (forall i, j :: 0 <= i < j < |list| ==> list[i].channelId != list[j].channelId)
    && (forall sub :: sub in list <==>
          sub.uaid == uaid && (uaid, sub.channelId) in s.channels && s.channels[(uaid, sub.channelId)] == sub)
  }

  function ChannelsOf(s: State, agents: set<string>): set<ChannelKey> {
    set k | k in s.channels && k.0 in agents
  }

  function Stale(s: State, cutoff: nat): set<string> {
    set u | u in s.userAgents && s.userAgents[u].lastSeen < cutoff
  }

  function Expired(s: State, now: nat): set<string> {
    set id | id in s.messages && s.messages[id].expiry <= now
  }

  /** Call `c` may take the store from `s` to `s'` and answer `a`. */
  ghost predicate Step(s: State, c: Call, s': State, a: Answer) {
    match c
    case CreateUserAgent(ua) => s' == s.(userAgents := s.userAgents[ua.uaid := ua]) && a == Done
    case ReadUserAgent(uaid) => s' == s && a == Agent(Lookup(s.userAgents, uaid))
    case TouchUserAgent(uaid, now) => s' == Touched(s, uaid, now) && a == Flag(uaid in s.userAgents)
    case UpdateBridgeToken(uaid, token) => s' == Retokened(s, uaid, token) && a == Flag(IsBridged(s, uaid))
    case DeleteUserAgent(uaid) =>
      a.Owed? && Dropped(s, {uaid}, ChannelsOf(s, {uaid}), s', a.queued)
    case ExpireUserAgents(cutoff) =>
      a.Swept? && a.count == |Stale(s, cutoff)|
      && Dropped(s, Stale(s, cutoff), ChannelsOf(s, Stale(s, cutoff)), s', a.queued)
    case Subscriptions(uaid) => s' == s && a.Subs? && ListsSubscriptions(s, uaid, a.list)
    case ReadChannel(uaid, ch) => s' == s && a == Sub(Lookup(s.channels, (uaid, ch)))
    case CreateSubscription(sub) =>
      s' == s.(channels := s.channels[(sub.uaid, sub.channelId) := sub],
               push := s.push[sub.push := (sub.uaid, sub.channelId)])
      && a == Sub(Some(sub))
    case SubscriptionByPush(push) =>
      s' == s && a == Sub(if push in s.push then Lookup(s.channels, s.push[push]) else None)
    case DeleteSubscription(uaid, ch) =>
      a.Owed? && Dropped(s, {}, {(uaid, ch)} * s.channels.Keys, s', a.queued)
    case InsertMessage(m) => s' == Inserted(s, m) && a == Done
    case Pending(uaid, now, limit) => s' == s && a.Messages? && IsPending(s.messages, uaid, now, limit, a.batch)
    case ReadMessage(id) => s' == s && a == Found(Lookup(s.messages, id))
    case DeleteMessage(id, owner) => s' == Deleted(s, id, owner) && a == Found(Deletable(s, id, owner))
    case CreateReceiptSub(rsub) => s' == s.(receipts := s.receipts[rsub := map[]]) && a == Done
    case ReceiptSubExists(rsub) => s' == s && a == Flag(rsub in s.receipts)
    case DeleteReceiptSub(rsub) => s' == s.(receipts := s.receipts - {rsub}) && a == Flag(rsub in s.receipts)
    case EnqueueReceipt(r) =>
      if r.rsub in s.receipts then
        a.Number? && a.n.Some? && a.n.value > s.last
        && s' == Enqueued(s, a.n.value, r)
      else s' == s && a == Number(None)
    case QueuedReceipts(rsub) =>
      s' == s && a.Reading? && IsReading(if rsub in s.receipts then s.receipts[rsub] else map[], a.receipts)
    case DeleteReceipt(rsub, n) =>
      s' == (if rsub in s.receipts then s.(receipts := s.receipts[rsub := s.receipts[rsub] - {n}]) else s)
      && a == Done
    case Reap(now) => a.Owed? && Purged(s, Expired(s, now), s', a.queued)
    case SetRoute(to, node) => s' == s.(routes := s.routes[to := node]) && a == Node(Lookup(s.routes, to))
    case ReadRoute(to) => s' == s && a == Node(Lookup(s.routes, to))
    case ClearRoute(to, node) =>
      var mine := Lookup(s.routes, to) == Some(node);
      s' == (if mine then s.(routes := s.routes - {to}) else s) && a == Flag(mine)
  }

  /** What callers owe the store: fresh random ids, and no channel created twice. */
  predicate Permitted(s: State, c: Call) {
    match c
    case CreateSubscription(sub) => (sub.uaid, sub.channelId) !in s.channels && sub.push !in s.push
    case InsertMessage(m) => m.id !in s.messages
    case _ => true
  }

  lemma InsertedKeepsValid(s: State, m: Message)
    requires Valid(s) && m.id !in s.messages
    ensures Valid(Inserted(s, m))
  {
  }

  lemma WithoutKeepsValid(s: State, gone: set<string>)
    requires Valid(s)
    ensures Valid(Without(s, gone))
  {
  }

  lemma CreatedKeepsValid(s: State, sub: Subscription)
    requires Valid(s) && (sub.uaid, sub.channelId) !in s.channels && sub.push !in s.push
    ensures var key := (sub.uaid, sub.channelId);
            Valid(s.(channels := s.channels[key := sub], push := s.push[sub.push := key]))
  {
  }

  lemma RoutesKeepValid(s: State, routes: map<Recipient, string>)
    requires Valid(s)
    ensures Valid(s.(routes := routes))
  {
  }

  lemma EnqueuedKeepsValid(s: State, n: nat, r: Receipt)
    requires Valid(s) && r.rsub in s.receipts && n > s.last
    ensures Valid(Enqueued(s, n, r))
  {
    EnqueuedKeepsQueues(s, n, r);
  }

  lemma EnqueuedKeepsQueues(s: State, n: nat, r: Receipt)
    requires QueuesAgree(s) && r.rsub in s.receipts && n > s.last
    ensures QueuesAgree(Enqueued(s, n, r))
  {
  }

  lemma FewerReceiptsKeepValid(s: State, receipts: map<string, Queue>)
    requires Valid(s)
    requires forall rsub, n :: rsub in receipts && n in receipts[rsub] ==>
      rsub in s.receipts && n in s.receipts[rsub] && receipts[rsub][n] == s.receipts[rsub][n]
    ensures Valid(s.(receipts := receipts))
  {
  }

  lemma AgentNamed(s: State, uaid: string)
    requires Valid(s) && uaid in s.userAgents
    ensures s.userAgents[uaid].uaid == uaid
  {
  }

  lemma AgentChanged(s: State, ua: UserAgent)
    requires Valid(s)
    ensures Valid(s.(userAgents := s.userAgents[ua.uaid := ua]))
  {
  }

  /** The calls that queue 410s. */
  predicate Sweeps(c: Call) {
    c.DeleteUserAgent? || c.ExpireUserAgents? || c.DeleteSubscription? || c.Reap?
  }

  lemma SweepKeepsValid(s: State, c: Call, s': State, a: Answer)
    requires Valid(s) && Sweeps(c) && Step(s, c, s', a)
    ensures Valid(s')
  {
    hide Valid, Dropped, Purged, IsPending, IsReading, ListsSubscriptions;
    match c {
      case DeleteUserAgent(uaid) => DroppedKeepsValid(s, {uaid}, ChannelsOf(s, {uaid}), s', a.queued);
      case ExpireUserAgents(cutoff) =>
        DroppedKeepsValid(s, Stale(s, cutoff), ChannelsOf(s, Stale(s, cutoff)), s', a.queued);
      case DeleteSubscription(uaid, ch) => DroppedKeepsValid(s, {}, {(uaid, ch)} * s.channels.Keys, s', a.queued);
      case Reap(now) => PurgedKeepsValid(s, Expired(s, now), s', a.queued);
    }
  }

  lemma ReceiptCallKeepsValid(s: State, c: Call, s': State, a: Answer)
    requires Valid(s) && Step(s, c, s', a)
    requires c.CreateReceiptSub? || c.DeleteReceiptSub? || c.EnqueueReceipt? || c.DeleteReceipt?
    ensures Valid(s')
  {
    hide Valid;
    if c.EnqueueReceipt? {
      if c.r.rsub in s.receipts {
        EnqueuedKeepsValid(s, a.n.value, c.r);
      }
    } else {
      FewerReceiptsKeepValid(s, s'.receipts);
    }
  }

  lemma AgentsUpdatedKeepValid(s: State, uaid: string, now: nat, token: string)
    requires Valid(s)
    ensures Valid(Touched(s, uaid, now)) && Valid(Retokened(s, uaid, token))
  {
    if uaid in s.userAgents {
      AgentNamed(s, uaid);
      hide Valid;
      AgentChanged(s, Touched(s, uaid, now).userAgents[uaid]);
      AgentChanged(s, Retokened(s, uaid, token).userAgents[uaid]);
      assert s.(userAgents := s.userAgents[uaid := s.userAgents[uaid]]) == s;
    }
  }

  lemma DeletedKeepsValid(s: State, id: string, owner: Option<ChannelKey>)
    requires Valid(s)
    ensures Valid(Deleted(s, id, owner))
  {
    hide Valid;
    WithoutKeepsValid(s, {id});
  }

  lemma FieldCallKeepsValid(s: State, c: Call, s': State, a: Answer)
    requires Valid(s) && Step(s, c, s', a)
    requires c.CreateUserAgent? || c.TouchUserAgent? || c.UpdateBridgeToken? || c.SetRoute? || c.ClearRoute?
    ensures Valid(s')
  {
    hide Valid, Touched, Retokened;
    match c {
      case CreateUserAgent(ua) => AgentChanged(s, ua);
      case TouchUserAgent(uaid, now) => AgentsUpdatedKeepValid(s, uaid, now, "");
      case UpdateBridgeToken(uaid, token) => AgentsUpdatedKeepValid(s, uaid, 0, token);
      case _ => RoutesKeepValid(s, s'.routes);
    }
  }

  /** Every call keeps the indexes in agreement, through the cascading deletes and both sweeps. */
  lemma StepKeepsValid(s: State, c: Call, s': State, a: Answer)
    requires Valid(s) && Permitted(s, c) && Step(s, c, s', a)
    ensures Valid(s')
  {
    hide Valid, Dropped, Purged, IsPending, IsReading, ListsSubscriptions, Touched, Retokened, Inserted, Deleted;
    if Sweeps(c) {
      SweepKeepsValid(s, c, s', a);
    } else if c.CreateReceiptSub? || c.DeleteReceiptSub? || c.EnqueueReceipt? || c.DeleteReceipt? {
      ReceiptCallKeepsValid(s, c, s', a);
    } else if c.CreateUserAgent? || c.TouchUserAgent? || c.UpdateBridgeToken? || c.SetRoute? || c.ClearRoute? {
      FieldCallKeepsValid(s, c, s', a);
    } else {
      match c {
        case CreateSubscription(sub) => CreatedKeepsValid(s, sub);
        case InsertMessage(m) => InsertedKeepsValid(s, m);
        case DeleteMessage(id, owner) => DeletedKeepsValid(s, id, owner);
        case _ =>
      }
    }
  }

  /** At most one stored message per (user agent, channel, topic). */
  lemma OneMessagePerSlot(s: State, a: string, b: string)
    requires Valid(s) && a in s.messages && b in s.messages
    requires SlotOf(s.messages[a]).Some? && SlotOf(s.messages[a]) == SlotOf(s.messages[b])
    ensures a == b
  {
    assert s.topics[SlotOf(s.messages[a]).value] == s.topics[SlotOf(s.messages[b]).value];
  }

  // -- Building removals step by step ---------------------------------------

  lemma PurgedMessages(s: State, gone: set<string>, s': State, out: seq<Numbered>)
    requires Purged(s, gone, s', out)
    ensures s'.messages == s.messages - gone && s'.channels == s.channels && s'.userAgents == s.userAgents
  {
  }

  lemma PurgedOne(s: State, id: string, s': State, out: seq<Numbered>)
    requires TopicsAgree(s) && id in s.messages
    requires if Owes(s, s.messages[id])
             then |out| == 1 && out[0].0 > s.last && out[0].1 == ReceiptFor(s.messages[id], 410)
                  && s' == Enqueued(Without(s, {id}), out[0].0, out[0].1)
             else out == [] && s' == Without(s, {id})
    ensures Purged(s, {id}, s', out)
  {
    assert s.messages[id].id == id;
    assert out[..0] == [];
    if Owes(s, s.messages[id]) {
      assert out[0].1.msgId == id;
    }
  }

  lemma OneOwnerGone(s: State, key: ChannelKey, s': State)
    requires Valid(s) && key in s.channels
    requires s' == s.(channels := s.channels - {key}, push := s.push - {s.channels[key].push})
    ensures s' == WithoutOwners(s, {}, {key}) && Valid(s')
  {
    assert s'.userAgents == s.userAgents - {};
    assert s'.push == WithoutOwners(s, {}, {key}).push;
  }

  lemma DroppedFacts(s: State, agents: set<string>, chans: set<ChannelKey>, s': State, out: seq<Numbered>)
    requires Dropped(s, agents, chans, s', out)
    ensures s'.channels == s.channels - chans && s'.userAgents == s.userAgents - agents
  {
  }

  lemma DroppedNothing(s: State)
    ensures Dropped(s, {}, {}, s, [])
  {
    PurgedNothing(s);
    assert WithoutOwners(s, {}, {}) == s by {
      assert s.userAgents - {} == s.userAgents && s.channels - {} == s.channels;
      assert WithoutOwners(s, {}, {}).push == s.push;
    }
    assert MessagesOf(s, {}) == {};
  }

  /** Removing one more channel. */
  lemma OneMoreChannel(
    s: State, uaid: string, done: set<ChannelKey>, mid: State, out: seq<Numbered>,
    k: ChannelKey, s': State, more: seq<Numbered>)
    requires Dropped(s, {uaid}, done, mid, out)
    requires Dropped(mid, {}, {k} * mid.channels.Keys, s', more) && k in mid.channels
    ensures Dropped(s, {uaid}, done + {k}, s', out + more)
    ensures s'.channels == mid.channels - {k}
  {
    assert {k} * mid.channels.Keys == {k};
    DroppedFacts(mid, {}, {k}, s', more);
    DroppedCompose(s, {uaid}, done, mid, out, {}, {k}, s', more);
    assert {uaid} + {} == {uaid};
  }

  /** Sweeping one more user agent. */
  lemma OneMoreAgent(
    s: State, done: set<string>, mid: State, out: seq<Numbered>, u: string, s': State, more: seq<Numbered>)
    requires Dropped(s, done, ChannelsOf(s, done), mid, out)
    requires Dropped(mid, {u}, ChannelsOf(mid, {u}), s', more)
    ensures Dropped(s, done + {u}, ChannelsOf(s, done + {u}), s', out + more)
    ensures ChannelsOf(s, done) + ChannelsOf(mid, {u}) == ChannelsOf(s, done + {u})
  {
    DroppedFacts(s, done, ChannelsOf(s, done), mid, out);
    DroppedCompose(s, done, ChannelsOf(s, done), mid, out, {u}, ChannelsOf(mid, {u}), s', more);
    assert ChannelsOf(s, done) + ChannelsOf(mid, {u}) == ChannelsOf(s, done + {u});
  }

  lemma AgentGoneKeepsValid(s: State, uaid: string)
    requires Valid(s)
    ensures Valid(s.(userAgents := s.userAgents - {uaid}))
  {
  }

  lemma DroppedAgent(s: State, uaid: string, s': State)
    requires s' == s.(userAgents := s.userAgents - {uaid})
    ensures Dropped(s, {uaid}, {}, s', [])
  {
    PurgedNothing(s');
    assert WithoutOwners(s, {uaid}, {}) == s' by {
      assert s.channels - {} == s.channels;
      assert WithoutOwners(s, {uaid}, {}).push == s.push;
    }
    assert MessagesOf(s, {}) == {};
  }

  /** Sorting and truncating the due messages gives the backlog batch. */
  lemma TruncatedIsPending(messages: map<string, Message>, uaid: string, now: nat, limit: nat, sorted: seq<Message>)
    requires OldestFirst(sorted)
    requires forall m :: m in sorted <==> Due(messages, uaid, now, m)
    ensures IsPending(messages, uaid, now, limit, if |sorted| > limit then sorted[..limit] else sorted)
  {
    if |sorted| > limit {
      var out := sorted[..limit];
      forall j | 0 <= j < limit ensures sorted[j] in out {
        assert out[j] == sorted[j];
      }
      forall m | m in sorted && m !in out ensures forall i :: 0 <= i < |out| ==> Older(out[i], m) {
        var j :| 0 <= j < |sorted| && sorted[j] == m;
      }
    }
  }

  // -- Sequences of calls ---------------------------------------------------

  /** The calls in order, with their answers and the states between them. */
  ghost predicate IsTrace(calls: seq<Call>, answers: seq<Answer>, trace: seq<State>) {
    |answers| == |calls| && |trace| == |calls| + 1
    && forall i :: 0 <= i < |calls| ==> Step(trace[i], calls[i], trace[i + 1], answers[i])
  }

  lemma TraceExtends(calls: seq<Call>, answers: seq<Answer>, trace: seq<State>, n: nat, s: State, a: Answer)
    requires n < |calls| && IsTrace(calls[..n], answers, trace)
    requires Step(trace[n], calls[n], s, a)
    ensures IsTrace(calls[..n + 1], answers + [a], trace + [s])
  {
    hide Step;
    var longer, states := answers + [a], trace + [s];
    forall i | 0 <= i < n + 1 ensures Step(states[i], calls[..n + 1][i], states[i + 1], longer[i]) {
      if i < n {
        assert Step(trace[i], calls[..n][i], trace[i + 1], answers[i]);
      }
    }
  }

  /** Whatever the answers, every call is permitted when its turn comes. */
  ghost predicate AllPermitted(s: State, calls: seq<Call>)
    decreases |calls|
  {
    |calls| == 0
    || (Permitted(s, calls[0]) && forall s', a :: Step(s, calls[0], s', a) ==> AllPermitted(s', calls[1..]))
  }
}
