/**
 What the store calls do on the table of rows. It is what they do on the abstract store, except
 that messages the reaper left behind are still found by id, can still be deleted, and still show
 in a backlog read for a time before they expired.
 */
module TableSpec {
  import opened Prelude
  import opened Types
  import opened StoreSpec
  import opened Keys
  import opened Layout

  // -- What callers owe the store -------------------------------------------

  /** Identifiers have the issued shapes and numbers fit their widths. */
  predicate Shaped(c: Call) {
    match c
    case CreateUserAgent(ua) => IsUaid(ua.uaid) && ua.lastSeen < U64
    case ReadUserAgent(uaid) => IsUaid(uaid)
    case TouchUserAgent(uaid, now) => IsUaid(uaid) && now < U64
    case UpdateBridgeToken(uaid, _) => IsUaid(uaid)
    case DeleteUserAgent(uaid) => IsUaid(uaid)
    case ExpireUserAgents(_) => true
    case Subscriptions(uaid) => IsUaid(uaid)
    case ReadChannel(uaid, ch) => IsUaid(uaid) && IsChannel(ch)
    case CreateSubscription(sub) => GoodSub(sub)
    case SubscriptionByPush(push) => IsId(push)
    case DeleteSubscription(uaid, ch) => IsUaid(uaid) && IsChannel(ch)
    case InsertMessage(m) => WellFormed(m)
    case Pending(uaid, _, _) => IsUaid(uaid)
    case ReadMessage(id) => IsId(id)
    case DeleteMessage(id, _) => IsId(id)
    case CreateReceiptSub(rsub) => IsId(rsub)
    case ReceiptSubExists(rsub) => IsId(rsub)
    case DeleteReceiptSub(rsub) => IsId(rsub)
    case EnqueueReceipt(r) => IsId(r.rsub) && r.status < U16
    case QueuedReceipts(rsub) => IsId(rsub)
    case DeleteReceipt(rsub, n) => IsId(rsub) && n < U64
    case Reap(now) => now + 1 < U64
    case SetRoute(to, _) => IsRecipient(to)
    case ReadRoute(to) => IsRecipient(to)
    case ClearRoute(to, node) => IsRecipient(to) && Ascii(node)
  }

  /** New identifiers are fresh, a channel is created only when absent, and touch times do not go backwards. */
  predicate Suits(s: State, past: History, c: Call) {
    match c
    case CreateUserAgent(ua) => ua.uaid !in s.userAgents
    case TouchUserAgent(uaid, now) => uaid in s.userAgents ==> s.userAgents[uaid].lastSeen <= now
    case CreateSubscription(sub) => (sub.uaid, sub.channelId) !in s.channels && sub.push !in s.push
    case InsertMessage(m) => m.id !in past.used
    case CreateReceiptSub(rsub) => rsub !in s.receipts
    case _ => true
  }

  /** Expired messages nobody waits for a receipt of: `reap` leaves their rows. */
  function Unclaimed(s: State, now: nat): set<string> {
    set id | id in s.messages && s.messages[id].expiry <= now && s.messages[id].rsub.None?
  }

  /** What a call adds to the history. */
  function Noted(past: History, s: State, c: Call): History {
    match c
    case InsertMessage(m) => past.(used := past.used + {m.id})
    case Reap(now) =>
      past.(horizon := if past.horizon < now then now else past.horizon, reaped := past.reaped + Unclaimed(s, now))
    case _ => past
  }

  // -- What is left behind --------------------------------------------------

  /** Messages of `left` in the given channels. */
  function LeftIn(left: map<string, Message>, chans: set<ChannelKey>): set<string> {
    set id | id in left && ChannelOf(left[id]) in chans
  }

  /** Messages of `left` in the topic slot of `m`. */
  function SameSlot(left: map<string, Message>, m: Message): set<string> {
    set id | id in left && SlotOf(m).Some? && SlotOf(left[id]) == SlotOf(m)
  }

  /** The message with a row under `id`, if `owner` may delete it. */
  function RowDeletable(s: State, x: Residue, id: string, owner: Option<ChannelKey>): Option<Message> {
    var all := Everything(s, x);
    if id in all && (owner.None? || owner.value == ChannelOf(all[id])) then Some(all[id]) else None
  }

  /** The messages left behind after a call. */
  function LeftAfter(s: State, x: Residue, c: Call): map<string, Message> {
    match c
    case InsertMessage(m) => x.left - SameSlot(x.left, m)
    case DeleteSubscription(uaid, ch) => x.left - LeftIn(x.left, {(uaid, ch)} * s.channels.Keys)
    case DeleteUserAgent(uaid) => x.left - LeftIn(x.left, ChannelsOf(s, {uaid}))
    case ExpireUserAgents(cutoff) => x.left - LeftIn(x.left, ChannelsOf(s, Stale(s, cutoff)))
    case DeleteMessage(id, owner) => if RowDeletable(s, x, id, owner).Some? then x.left - {id} else x.left
    case Reap(now) => x.left + (map id | id in Unclaimed(s, now) :: s.messages[id])
    case _ => x.left
  }

  /** Call `c` may take the table from `(s, x)` to `(s', x')` and answer `a`. */
  ghost predicate TableStep(s: State, x: Residue, c: Call, s': State, x': Residue, a: Answer) {
    x' == Residue(LeftAfter(s, x, c), Noted(x.past, s, c))
    && match c
       case Pending(uaid, now, limit) =>
         s' == s && a.Messages? && IsPending(Everything(s, x), uaid, now, limit, a.batch)
       case ReadMessage(id) => s' == s && a == Found(Lookup(Everything(s, x), id))
       case DeleteMessage(id, owner) => s' == Deleted(s, id, owner) && a == Found(RowDeletable(s, x, id, owner))
       case _ => Step(s, c, s', a)
  }

  /** Calls that change nothing and do not see what was left behind. */
  predicate Queries(c: Call) {
    c.ReadUserAgent? || c.Subscriptions? || c.ReadChannel? || c.SubscriptionByPush?
    || c.ReceiptSubExists? || c.QueuedReceipts? || c.ReadRoute?
  }

  /** The stored messages and what was left behind. */
  datatype Contents = Contents(s: State, x: Residue)

  /** The calls in order, with their answers and the contents between them. */
  ghost predicate IsTableTrace(calls: seq<Call>, answers: seq<Answer>, trace: seq<Contents>) {
    |answers| == |calls| && |trace| == |calls| + 1
    && forall i :: 0 <= i < |calls| ==>
         TableStep(trace[i].s, trace[i].x, calls[i], trace[i + 1].s, trace[i + 1].x, answers[i])
  }

  lemma TableTraceExtends(calls: seq<Call>, answers: seq<Answer>, trace: seq<Contents>, n: nat, c: Contents, a: Answer)
    requires n < |calls| && IsTableTrace(calls[..n], answers, trace)
    requires TableStep(trace[n].s, trace[n].x, calls[n], c.s, c.x, a)
    ensures IsTableTrace(calls[..n + 1], answers + [a], trace + [c])
  {
    hide TableStep;
    var longer, states := answers + [a], trace + [c];
    forall i | 0 <= i < n + 1
      ensures TableStep(states[i].s, states[i].x, calls[..n + 1][i], states[i + 1].s, states[i + 1].x, longer[i])
    {
      if i < n {
        assert TableStep(trace[i].s, trace[i].x, calls[..n][i], trace[i + 1].s, trace[i + 1].x, answers[i]);
      }
    }
  }

  /** The indexes of the stored messages agree, and what was left behind is expired, receipt-less and reaped. */
  ghost predicate Sound(c: Contents) {
    Valid(c.s) && LeftBehind(c.s, c.x)
  }

  /** Whatever the answers, every call is shaped and suitable when its turn comes. */
  ghost predicate AllSuit(s: State, x: Residue, calls: seq<Call>)
    decreases |calls|
  {
    |calls| == 0
    || (Shaped(calls[0]) && Suits(s, x.past, calls[0])
        && forall s', x', a :: TableStep(s, x, calls[0], s', x', a) ==> AllSuit(s', x', calls[1..]))
  }

  // -- Where the table and the abstract store differ ------------------------

  /** The calls that can see what was left behind. */
  predicate SeesLeft(c: Call) {
    c.Pending? || c.ReadMessage? || c.DeleteMessage?
  }

  /** A read by id agrees exactly when the message was not left behind. */
  lemma ReadAgrees(s: State, x: Residue, id: string)
    requires LeftBehind(s, x)
    ensures Lookup(Everything(s, x), id) == Lookup(s.messages, id) <==> id !in x.left
  {
  }

  /** A delete by id agrees exactly when the message was not left behind, or the owner may not delete it. */
  lemma DeleteAgrees(s: State, x: Residue, id: string, owner: Option<ChannelKey>)
    requires LeftBehind(s, x)
    ensures RowDeletable(s, x, id, owner) == Deletable(s, id, owner) <==>
            !(id in x.left && (owner.None? || owner.value == ChannelOf(x.left[id])))
  {
  }

  lemma DueApart(s: State, x: Residue, uaid: string, now: nat, m: Message)
    requires LeftBehind(s, x)
    ensures Due(Everything(s, x), uaid, now, m) <==> Due(s.messages, uaid, now, m) || Due(x.left, uaid, now, m)
    ensures !(Due(s.messages, uaid, now, m) && Due(x.left, uaid, now, m))
  {
  }

  /**
   A backlog read agrees exactly when every message left behind that is due at `now` comes after
   a full batch. From the latest reaping time on none is due.
   */
  lemma PendingAgrees(s: State, x: Residue, uaid: string, now: nat, limit: nat, a: seq<Message>, b: seq<Message>)
    requires LeftBehind(s, x)
    requires IsPending(s.messages, uaid, now, limit, a) && IsPending(Everything(s, x), uaid, now, limit, b)
    ensures a == b <==>
            forall m :: Due(x.left, uaid, now, m) ==> |a| == limit && forall i :: 0 <= i < |a| ==> Older(a[i], m)
    ensures x.past.horizon <= now ==> a == b
  {
    hide Everything, Older, OldestFirst, Due;
    forall m
      ensures Due(Everything(s, x), uaid, now, m) <==> Due(s.messages, uaid, now, m) || Due(x.left, uaid, now, m)
      ensures !(Due(s.messages, uaid, now, m) && Due(x.left, uaid, now, m))
      ensures x.past.horizon <= now ==> !Due(x.left, uaid, now, m)
    {
      DueApart(s, x, uaid, now, m);
      if x.past.horizon <= now {
        NotDue(s, x, uaid, now, m);
      }
    }
    if forall m :: Due(x.left, uaid, now, m) ==> |a| == limit && forall i :: 0 <= i < |a| ==> Older(a[i], m) {
      assert IsPending(Everything(s, x), uaid, now, limit, a);
      PendingUnique(Everything(s, x), uaid, now, limit, a, b);
    }
  }

  lemma NotDue(s: State, x: Residue, uaid: string, now: nat, m: Message)
    requires LeftBehind(s, x) && x.past.horizon <= now
    ensures !Due(x.left, uaid, now, m)
  {
  }

  /** A message without a topic or a receipt is all that is stored after its insertion. */
  lemma InsertedAlone(m: Message)
    requires m.topic.None?
    ensures Inserted(EMPTY, m) == EMPTY.(messages := map[m.id := m])
    ensures SameSlot(map[], m) == {} && Without(EMPTY.(messages := map[m.id := m]), {m.id}) == EMPTY
  {
    var s := EMPTY.(messages := map[m.id := m]);
    assert s.messages - {m.id} == map[];
  }

  /** ... and the reaper leaves it behind. */
  lemma ReapedAlone(m: Message)
    requires m.rsub.None?
    ensures var s := EMPTY.(messages := map[m.id := m]);
            Unclaimed(s, m.expiry) == {m.id} && Expired(s, m.expiry) == {m.id}
            && OwedFor(s, {m.id}, []) && Ascending(0, []) && QueueAll(map[], []) == map[]
  {
  }

  /** One message without a topic or a receipt, inserted and reaped. */
  lemma InsertedAndReaped(m: Message) returns (x: Residue)
    requires m.rsub.None? && m.topic.None?
    ensures x == Residue(map[m.id := m], History(m.expiry, {m.id}, {m.id}))
    ensures var none := Residue(map[], History(0, {}, {}));
            var s, y := Inserted(EMPTY, m), Residue(map[], History(0, {m.id}, {}));
            TableStep(EMPTY, none, InsertMessage(m), s, y, Done)
            && TableStep(s, y, Reap(m.expiry), EMPTY, x, Owed([]))
  {
    hide Inserted, SameSlot, Unclaimed, Expired, OwedFor, Ascending, QueueAll, Without;
    x := Residue(map[m.id := m], History(m.expiry, {m.id}, {m.id}));
    InsertedAlone(m);
    ReapedAlone(m);
    assert (map id | id in {m.id} :: map[m.id := m][id]) == map[m.id := m];
  }

  lemma OnePending(m: Message, now: nat, limit: nat)
    requires now < m.expiry && limit > 0
    ensures IsPending(map[m.id := m], m.uaid, now, limit, [m])
  {
    hide Older;
    forall x | Due(map[m.id := m], m.uaid, now, x) ensures x in [m] {
      assert x == m;
    }
  }

  lemma NonePending(uaid: string, now: nat, limit: nat, batch: seq<Message>)
    requires IsPending(map[], uaid, now, limit, batch)
    ensures batch == []
  {
    assert IsPending(map[], uaid, now, limit, []);
    PendingUnique(map[], uaid, now, limit, batch, []);
  }

  lemma NothingStored(m: Message, now: nat, limit: nat)
    ensures forall s, a :: Step(EMPTY, ReadMessage(m.id), s, a) ==> a == Found(None)
    ensures forall s, a :: Step(EMPTY, Pending(m.uaid, now, limit), s, a) ==> a == Messages([])
    ensures forall s, a :: Step(EMPTY, DeleteMessage(m.id, None), s, a) ==> a == Found(None)
  {
    hide IsPending;
    forall t, a | Step(EMPTY, Pending(m.uaid, now, limit), t, a) ensures a == Messages([]) {
      NonePending(m.uaid, now, limit, a.batch);
    }
  }

  /**
   A disagreement, for every message without a receipt: once it is inserted and reaped the table
   still finds it, deletes it and shows it in a backlog read for an earlier time; the abstract
   store does none of it.
   */
  lemma ReapedStillSeen(m: Message, now: nat, limit: nat) returns (x: Residue)
    requires m.rsub.None? && m.topic.None? && now < m.expiry && limit > 0
    ensures var none := Residue(map[], History(0, {}, {}));
            var s, y := Inserted(EMPTY, m), Residue(map[], History(0, {m.id}, {}));
            TableStep(EMPTY, none, InsertMessage(m), s, y, Done)
            && TableStep(s, y, Reap(m.expiry), EMPTY, x, Owed([]))
    ensures TableStep(EMPTY, x, ReadMessage(m.id), EMPTY, x, Found(Some(m)))
    ensures TableStep(EMPTY, x, Pending(m.uaid, now, limit), EMPTY, x, Messages([m]))
    ensures TableStep(EMPTY, x, DeleteMessage(m.id, None), EMPTY, x.(left := map[]), Found(Some(m)))
    ensures forall s, a :: Step(EMPTY, ReadMessage(m.id), s, a) ==> a == Found(None)
    ensures forall s, a :: Step(EMPTY, Pending(m.uaid, now, limit), s, a) ==> a == Messages([])
    ensures forall s, a :: Step(EMPTY, DeleteMessage(m.id, None), s, a) ==> a == Found(None)
  {
    hide IsPending, Inserted, Step;
    x := InsertedAndReaped(m);
    assert Everything(EMPTY, x) == map[m.id := m];
    OnePending(m, now, limit);
    assert x.left - {m.id} == map[];
    assert Deleted(EMPTY, m.id, None) == EMPTY;
    NothingStored(m, now, limit);
  }
}
