/**
 What becomes of every message, over any sequence of store calls and acknowledgements: it is
 stored or has met exactly one fate, with an entry of the log that explains it; and the receipts
 queued for it are those its fate calls for.
 */
module Fates {
  import opened Prelude
  import opened Types
  import opened StoreSpec

  /**
   One thing that happened: a call, with its answer, the channels it dropped and the receipt
   subscriptions it met, or an acknowledgement.
   */
  datatype Entry =
    | Did(c: Call, a: Answer, dropped: set<ChannelKey>, subs: set<string>)
    | Acked(id: string, owner: ChannelKey, status: nat, found: Option<Message>)

  datatype Fate = Replaced | Withdrawn | Acknowledged | Unsubscribed | Reaped

  /** The fate of a message that an entry of this kind removed. */
  function Kind(e: Entry): Fate {
    match e
    case Acked(_, _, _, _) => Acknowledged
    case Did(InsertMessage(_), _, _, _) => Replaced
    case Did(DeleteMessage(_, _), _, _, _) => Withdrawn
    case Did(Reap(_), _, _, _) => Reaped
    case _ => Unsubscribed
  }

  /** What must be true of message `m` when entry `e` removed it. */
  predicate Explains(e: Entry, m: Message) {
    match e
    case Acked(id, owner, status, found) =>
      id == m.id && found == Some(m) && ChannelOf(m) == owner && (status == 204 || status == 410)
    case Did(InsertMessage(n), _, _, _) => SlotOf(m).Some? && SlotOf(n) == SlotOf(m) && n.id != m.id
    case Did(DeleteMessage(id, owner), a, _, _) =>
      id == m.id && a == Found(Some(m)) && (owner.Some? ==> ChannelOf(m) == owner.value)
    case Did(Reap(now), _, _, _) => m.expiry <= now
    case Did(c, _, dropped, _) => Sweeps(c) && ChannelOf(m) in dropped
  }

  /** The message an entry gave back to its caller. */
  function GaveBack(e: Entry): Option<Message> {
    match e
    case Acked(_, _, _, found) => found
    case Did(DeleteMessage(_, _), Found(m), _, _) => m
    case _ => None
  }

  /**
   The store and the record of a run: every inserted message, the entries at which each was
   inserted and removed, the log, the acknowledged messages whose receipt has still to be queued, and
   every receipt queued, in order.
   */
  datatype World = World(
    s: State,
    all: map<string, Message>,
    born: map<string, nat>,
    fates: map<string, nat>,
    log: seq<Entry>,
    pending: set<string>,
    receipts: seq<Receipt>)

  ghost predicate Initial(w: World) {
    w == World(EMPTY, map[], map[], map[], [], {}, [])
  }

  /** The receipts a call queued. */
  function Queued(a: Answer): seq<Receipt> {
    match a
    case Owed(queued) => seq(|queued|, i requires 0 <= i < |queued| => queued[i].1)
    case Swept(_, queued) => seq(|queued|, i requires 0 <= i < |queued| => queued[i].1)
    case _ => []
  }

  /** Messages stored before and not after. */
  function Vanished(s: State, s': State): set<string> {
    s.messages.Keys - s'.messages.Keys
  }

  /** The fates after the messages `gone` met theirs at entry `n`. */
  function Fated(fates: map<string, nat>, gone: set<string>, n: nat): map<string, nat> {
    fates + (map id | id in gone :: n)
  }

  lemma FatedAt(fates: map<string, nat>, gone: set<string>, n: nat)
    ensures Fated(fates, gone, n).Keys == fates.Keys + gone
    ensures forall id :: id in gone ==> Fated(fates, gone, n)[id] == n
    ensures forall id :: id in fates && id !in gone ==> Fated(fates, gone, n)[id] == fates[id]
  {
  }

  lemma FatedOne(fates: map<string, nat>, id: string, n: nat)
    ensures Fated(fates, {id}, n) == fates[id := n] && Fated(fates, {}, n) == fates
  {
  }

  /** The status with which message `id` was acknowledged. */
  function AckStatus(w: World, id: string): Option<nat> {
    if id in w.fates && w.fates[id] < |w.log| && w.log[w.fates[id]].Acked?
    then Some(w.log[w.fates[id]].status) else None
  }

  // -- Moves ----------------------------------------------------------------

  /** What is noted of a call. */
  function EntryFor(s: State, c: Call, s': State, a: Answer): Entry {
    Did(c, a, s.channels.Keys - s'.channels.Keys, s.receipts.Keys)
  }

  /** Any call but `enqueue_receipt`, which only acknowledgements make. */
  ghost predicate Calls(w: World, c: Call, a: Answer, w': World) {
    !c.EnqueueReceipt? && Permitted(w.s, c) && (c.InsertMessage? ==> c.m.id !in w.all)
    && Step(w.s, c, w'.s, a)
    && var gone, n := Vanished(w.s, w'.s), |w.log|;
       w'.all == (if c.InsertMessage? then w.all[c.m.id := c.m] else w.all)
       && w'.born == (if c.InsertMessage? then w.born[c.m.id := n] else w.born)
       && w'.fates == Fated(w.fates, gone, n)
       && w'.log == w.log + [EntryFor(w.s, c, w'.s, a)]
       && w'.pending == w.pending
       && w'.receipts == w.receipts + Queued(a)
  }

  /** The first half of an acknowledgement: the message is deleted if it is there and the client's own. */
  ghost predicate AckDeletes(w: World, id: string, owner: ChannelKey, status: nat, w': World) {
    (status == 204 || status == 410)
    && var m := Deletable(w.s, id, Some(owner));
       w' == w.(s := Deleted(w.s, id, Some(owner)),
                fates := if m.Some? then w.fates[id := |w.log|] else w.fates,
                log := w.log + [Acked(id, owner, status, m)],
                pending := if m.Some? && m.value.rsub.Some? then w.pending + {id} else w.pending)
  }

  /** The second half: its receipt is queued, if the subscription still exists. */
  ghost predicate AckOwes(w: World, id: string, a: Answer, w': World) {
    id in w.pending && id in w.all && w.all[id].rsub.Some? && AckStatus(w, id).Some?
    && var r := ReceiptFor(w.all[id], AckStatus(w, id).value);
       Step(w.s, EnqueueReceipt(r), w'.s, a)
       && w' == w.(s := w'.s, pending := w.pending - {id},
                   receipts := if r.rsub in w.s.receipts then w.receipts + [r] else w.receipts)
  }

  datatype Move =
    | Makes(c: Call, a: Answer)
    | AckDelete(id: string, owner: ChannelKey, status: nat)
    | AckOwe(id: string, a: Answer)
    /** An acknowledgement interrupted between its halves queues nothing. */
    | AckLost(id: string)

  ghost predicate Moves(w: World, m: Move, w': World) {
    match m
    case Makes(c, a) => Calls(w, c, a, w')
    case AckDelete(id, owner, status) => AckDeletes(w, id, owner, status, w')
    case AckOwe(id, a) => AckOwes(w, id, a, w')
    case AckLost(id) => w' == w.(pending := w.pending - {id})
  }

  ghost predicate Next(w: World, w': World) {
    exists m :: Moves(w, m, w')
  }

  ghost predicate IsRun(run: seq<World>) {
    |run| > 0 && Initial(run[0]) && forall i :: 0 <= i < |run| - 1 ==> Next(run[i], run[i + 1])
  }

  // -- What holds throughout ------------------------------------------------

  /** Every inserted message is stored or has a fate, and not both. */
  ghost predicate OneFate(w: World) {
    w.s.messages.Keys + w.fates.Keys == w.all.Keys && w.s.messages.Keys !! w.fates.Keys
    && (forall id :: id in w.all ==> w.all[id].id == id)
    && (forall id :: id in w.s.messages ==> w.s.messages[id] == w.all[id])
  }

  /** The log has the insertion of every message. */
  ghost predicate Born(w: World) {
    w.born.Keys == w.all.Keys
    && forall id :: id in w.all ==>
         w.born[id] < |w.log| && w.log[w.born[id]].Did? && w.log[w.born[id]].c == InsertMessage(w.all[id])
  }

  /** ... and, later, what removed it. */
  ghost predicate Explained(w: World) {
    forall id :: id in w.fates ==> ExplainedOne(w, id)
  }

  ghost predicate ExplainedOne(w: World, id: string)
    requires id in w.fates
  {
    id in w.all && id in w.born && w.born[id] < w.fates[id] < |w.log| && Explains(w.log[w.fates[id]], w.all[id])
  }

  /** A message was given back at most once, by the entry that removed it. */
  ghost predicate GivenOnce(w: World) {
    forall n :: 0 <= n < |w.log| && GaveBack(w.log[n]).Some? ==>
      var m := GaveBack(w.log[n]).value;
      m.id in w.fates && w.fates[m.id] == n && m.id in w.all && w.all[m.id] == m
  }

  ghost predicate ReceiptOf(w: World, id: string) {
    exists i :: 0 <= i < |w.receipts| && w.receipts[i].msgId == id
  }

  predicate Swept(w: World, id: string) {
    id in w.fates && w.fates[id] < |w.log|
    && (Kind(w.log[w.fates[id]]).Unsubscribed? || Kind(w.log[w.fates[id]]).Reaped?)
  }

  /** A sweep removed the message while the receipt subscription it named existed. */
  predicate Asked(w: World, id: string) {
    Swept(w, id) && w.log[w.fates[id]].Did? && id in w.all
    && w.all[id].rsub.Some? && w.all[id].rsub.value in w.log[w.fates[id]].subs
  }

  /** The receipt is the one the fate of its message calls for. */
  ghost predicate ReceiptFits(w: World, r: Receipt) {
    r.msgId in w.fates && w.fates[r.msgId] < |w.log| && r.msgId in w.all && w.all[r.msgId].rsub == Some(r.rsub)
    && r.msgId !in w.pending
    && match Kind(w.log[w.fates[r.msgId]])
       case Replaced => false
       case Withdrawn => false
       case Acknowledged => AckStatus(w, r.msgId) == Some(r.status)
       case _ => r.status == 410 && Asked(w, r.msgId)
  }

  predicate DistinctReceipts(r: seq<Receipt>) {
    forall i, j :: 0 <= i < j < |r| ==> r[i].msgId != r[j].msgId
  }

  ghost predicate ReceiptsFit(w: World) {
    DistinctReceipts(w.receipts)
    && (forall i :: 0 <= i < |w.receipts| ==> ReceiptFits(w, w.receipts[i]))
    && (forall id :: id in w.fates && Asked(w, id) ==> ReceiptOf(w, id))
    && (forall id :: id in w.pending ==> AckStatus(w, id).Some?)
  }

  ghost predicate Inv(w: World) {
    Valid(w.s) && OneFate(w) && Born(w) && Explained(w) && GivenOnce(w) && ReceiptsFit(w)
  }

  /** Fates stay what they are and the log only grows. */
  ghost predicate FatesStand(w: World, w': World) {
    w.log <= w'.log && forall id :: id in w.fates ==> id in w'.fates && w'.fates[id] == w.fates[id]
  }

  // -- What a call removes --------------------------------------------------

  /** A sweep removes some messages and queues a 410 for those it owes one. */
  lemma SweepOwes(s: State, c: Call, s': State, a: Answer) returns (gone: set<string>, out: seq<Numbered>)
    requires Sweeps(c) && Step(s, c, s', a)
    ensures gone <= s.messages.Keys && s'.messages == s.messages - gone && OwedFor(s, gone, out)
    ensures forall id :: id in gone ==>
              (Receipted(out, id) <==> s.messages[id].rsub.Some? && s.messages[id].rsub.value in s.receipts)
    ensures forall i :: 0 <= i < |out| ==>
              var r := out[i].1;
              r.msgId in gone && r.status == 410 && s.messages[r.msgId].rsub == Some(r.rsub)
    ensures Queued(a) == seq(|out|, i requires 0 <= i < |out| => out[i].1)
    ensures forall id :: id in gone ==> Explains(EntryFor(s, c, s', a), s.messages[id])
  {
    hide OwedFor, Dropped, Purged, MessagesOf, Without;
    match c {
      case DeleteUserAgent(uaid) => gone, out := DroppedTakes(s, {uaid}, ChannelsOf(s, {uaid}), s', a.queued);
      case ExpireUserAgents(cutoff) =>
        gone, out := DroppedTakes(s, Stale(s, cutoff), ChannelsOf(s, Stale(s, cutoff)), s', a.queued);
      case DeleteSubscription(uaid, ch) =>
        gone, out := DroppedTakes(s, {}, {(uaid, ch)} * s.channels.Keys, s', a.queued);
      case Reap(now) => gone, out := ReapedTakes(s, now, s', a.queued);
    }
    OwedMeans(s, gone, out);
  }

  lemma OwedMeans(s: State, gone: set<string>, out: seq<Numbered>)
    requires OwedFor(s, gone, out) && gone <= s.messages.Keys
    ensures forall id :: id in gone ==>
              (Receipted(out, id) <==> s.messages[id].rsub.Some? && s.messages[id].rsub.value in s.receipts)
    ensures forall i :: 0 <= i < |out| ==>
              var r := out[i].1;
              r.msgId in gone && r.status == 410 && s.messages[r.msgId].rsub == Some(r.rsub)
  {
  }

  lemma DroppedTakes(s: State, agents: set<string>, chans: set<ChannelKey>, s': State, queued: seq<Numbered>)
    returns (gone: set<string>, out: seq<Numbered>)
    requires Dropped(s, agents, chans, s', queued)
    ensures out == queued && gone <= s.messages.Keys && s'.messages == s.messages - gone && OwedFor(s, gone, out)
    ensures forall id :: id in gone ==> ChannelOf(s.messages[id]) in s.channels.Keys - s'.channels.Keys
  {
    hide OwedFor, Ascending, QueueAll, LastOf;
    gone, out := MessagesOf(s, chans), queued;
    OwedApart(WithoutOwners(s, agents, chans), s, gone, out);
  }

  lemma ReapedTakes(s: State, now: nat, s': State, queued: seq<Numbered>)
    returns (gone: set<string>, out: seq<Numbered>)
    requires Purged(s, Expired(s, now), s', queued)
    ensures out == queued && gone <= s.messages.Keys && s'.messages == s.messages - gone && OwedFor(s, gone, out)
    ensures forall id :: id in gone ==> s.messages[id].expiry <= now
  {
    hide OwedFor, Ascending, QueueAll, LastOf;
    gone, out := Expired(s, now), queued;
  }

  lemma OwedApart(s: State, t: State, gone: set<string>, out: seq<Numbered>)
    requires OwedFor(s, gone, out) && t.messages == s.messages && t.receipts == s.receipts
    ensures OwedFor(t, gone, out)
  {
  }

  /**
   A call that is no sweep queues nothing; an insert removes at most what its topic slot held, a
   delete what it gives back.
   */
  lemma OtherCalls(s: State, c: Call, s': State, a: Answer)
    requires !Sweeps(c) && !c.EnqueueReceipt? && Permitted(s, c) && Step(s, c, s', a) && Valid(s)
    ensures Queued(a) == []
    ensures if c.InsertMessage? then c.m.id in s'.messages && s'.messages[c.m.id] == c.m && c.m.id !in s.messages
            else forall id :: id in s'.messages ==> id in s.messages
    ensures forall id :: id in s'.messages && (c.InsertMessage? ==> id != c.m.id) ==>
              id in s.messages && s'.messages[id] == s.messages[id]
    ensures forall id :: id in Vanished(s, s') ==>
            Explains(EntryFor(s, c, s', a), s.messages[id])
    ensures var back := GaveBack(EntryFor(s, c, s', a));
            back.Some? ==> back.value.id in Vanished(s, s') && s.messages[back.value.id] == back.value
  {
    hide Step, Valid, Explains;
    match c {
      case InsertMessage(m) => InsertTakes(s, m, s', a);
      case DeleteMessage(id, owner) => DeleteTakes(s, id, owner, s', a);
      case _ => PlainTakes(s, c, s', a);
    }
  }

  lemma InsertTakes(s: State, m: Message, s': State, a: Answer)
    requires Valid(s) && m.id !in s.messages && Step(s, InsertMessage(m), s', a)
    ensures Queued(a) == [] && m.id in s'.messages && s'.messages[m.id] == m
    ensures forall id :: id in s'.messages && id != m.id ==> id in s.messages && s'.messages[id] == s.messages[id]
    ensures forall id :: id in Vanished(s, s') ==>
              Explains(EntryFor(s, InsertMessage(m), s', a), s.messages[id])
  {
    hide PushAgrees, QueuesAgree;
  }

  lemma DeleteTakes(s: State, id: string, owner: Option<ChannelKey>, s': State, a: Answer)
    requires Valid(s) && Step(s, DeleteMessage(id, owner), s', a)
    ensures a.Found? && Queued(a) == []
    ensures forall k :: k in s'.messages ==> k in s.messages && s'.messages[k] == s.messages[k]
    ensures Vanished(s, s') == if a.message.Some? then {id} else {}
    ensures a.message.Some? ==>
              id in s.messages && a.message.value == s.messages[id] && id == a.message.value.id
              && Explains(EntryFor(s, DeleteMessage(id, owner), s', a), a.message.value)
  {
    hide Valid;
    MessagesNamed(s);
  }

  lemma MessagesNamed(s: State)
    requires Valid(s)
    ensures forall id :: id in s.messages ==> s.messages[id].id == id
  {
    hide PushAgrees, QueuesAgree;
  }

  lemma PlainTakes(s: State, c: Call, s': State, a: Answer)
    requires !Sweeps(c) && !c.EnqueueReceipt? && !c.InsertMessage? && !c.DeleteMessage? && Step(s, c, s', a)
    ensures s'.messages == s.messages && Queued(a) == []
    ensures GaveBack(EntryFor(s, c, s', a)).None?
  {
    hide IsPending, IsReading, ListsSubscriptions;
  }

  // -- Moves keep it --------------------------------------------------------

  lemma InsertOneFate(w: World, m: Message, n: nat, w': World)
    requires OneFate(w) && m.id !in w.all && w'.all == w.all[m.id := m]
    requires m.id in w'.s.messages && w'.s.messages[m.id] == m
    requires forall id :: id in w'.s.messages && id != m.id ==>
             id in w.s.messages && w'.s.messages[id] == w.s.messages[id]
    requires w'.fates == Fated(w.fates, Vanished(w.s, w'.s), n)
    ensures OneFate(w')
  {
    hide Fated;
    FatedAt(w.fates, Vanished(w.s, w'.s), n);
  }

  lemma FewerOneFate(w: World, n: nat, w': World)
    requires OneFate(w) && w'.all == w.all
    requires forall id :: id in w'.s.messages ==> id in w.s.messages && w'.s.messages[id] == w.s.messages[id]
    requires w'.fates == Fated(w.fates, Vanished(w.s, w'.s), n)
    ensures OneFate(w')
  {
    hide Fated;
    FatedAt(w.fates, Vanished(w.s, w'.s), n);
  }

  /** One more entry, and the messages it removed. */
  ghost predicate Appends(w: World, e: Entry, gone: set<string>, w': World) {
    w'.log == w.log + [e] && gone <= w.s.messages.Keys
    && w'.fates == Fated(w.fates, gone, |w.log|)
    && (if e.Did? && e.c.InsertMessage?
        then e.c.m.id !in w.all && w'.all == w.all[e.c.m.id := e.c.m] && w'.born == w.born[e.c.m.id := |w.log|]
        else w'.all == w.all && w'.born == w.born)
    && (forall id :: id in gone ==> Explains(e, w.s.messages[id]))
    && (GaveBack(e).Some? ==> GaveBack(e).value.id in gone && w.s.messages[GaveBack(e).value.id] == GaveBack(e).value)
  }

  lemma FatesKept(w: World, gone: set<string>, n: nat, w': World)
    requires OneFate(w) && gone <= w.s.messages.Keys && w'.fates == Fated(w.fates, gone, n)
    ensures forall id :: id in w.fates ==> id in w'.fates && w'.fates[id] == w.fates[id]
    ensures forall id :: id in gone ==> id !in w.fates && id in w.all && w.all[id] == w.s.messages[id]
  {
    hide Fated;
    FatedAt(w.fates, gone, n);
  }

  lemma EntryBorn(w: World, e: Entry, gone: set<string>, w': World)
    requires Born(w) && Appends(w, e, gone, w')
    ensures Born(w')
  {
    hide Explains, GaveBack, Fated;
  }

  lemma AppendsGrows(w: World, e: Entry, gone: set<string>, w': World)
    requires Appends(w, e, gone, w') && w.born.Keys == w.all.Keys
    ensures forall id :: id in w.all ==>
            id in w'.all && w'.all[id] == w.all[id] && id in w'.born && w'.born[id] == w.born[id]
  {
    hide Explains, GaveBack, Fated;
  }

  lemma NewlyExplained(w: World, e: Entry, gone: set<string>, w': World, id: string)
    requires Appends(w, e, gone, w') && Born(w) && id in gone && id in w.all && w.all[id] == w.s.messages[id]
    ensures id in w'.fates && ExplainedOne(w', id)
  {
    hide GaveBack, Fated;
    assert w.born[id] < |w.log|;
    AppendsGrows(w, e, gone, w');
    hide Born;
    FatedAt(w.fates, gone, |w.log|);
    assert w'.fates[id] == |w.log| && w'.log[|w.log|] == e;
    assert Explains(e, w.s.messages[id]);
    hide Appends, Explains;
  }

  lemma StaysExplained(w: World, e: Entry, gone: set<string>, w': World, id: string)
    requires Appends(w, e, gone, w') && w.born.Keys == w.all.Keys && id in w.fates && id !in gone && ExplainedOne(w, id)
    ensures id in w'.fates && ExplainedOne(w', id)
  {
    hide GaveBack, Fated, Explains;
    AppendsGrows(w, e, gone, w');
    FatedAt(w.fates, gone, |w.log|);
    assert w'.fates[id] == w.fates[id] && w'.log[w.fates[id]] == w.log[w.fates[id]];
    hide Appends;
  }

  /** The new entry explains what it removed, and what was removed before stays explained. */
  lemma EntryExplained(w: World, e: Entry, gone: set<string>, w': World)
    requires OneFate(w) && Born(w) && Explained(w) && Appends(w, e, gone, w')
    ensures Explained(w')
  {
    hide GaveBack, Fated, Explains, ExplainedOne;
    FatedAt(w.fates, gone, |w.log|);
    FatesKept(w, gone, |w.log|, w');
    assert w.born.Keys == w.all.Keys;
    hide Appends, OneFate, Born;
    forall id | id in w'.fates ensures ExplainedOne(w', id) {
      if id in gone {
        NewlyExplained(w, e, gone, w', id);
      } else {
        StaysExplained(w, e, gone, w', id);
      }
    }
  }

  lemma EntryGiven(w: World, e: Entry, gone: set<string>, w': World)
    requires OneFate(w) && GivenOnce(w) && Appends(w, e, gone, w')
    ensures GivenOnce(w')
  {
    hide GaveBack, Explains, Fated;
    FatedAt(w.fates, gone, |w.log|);
    forall n | 0 <= n < |w'.log| && GaveBack(w'.log[n]).Some?
      ensures var m := GaveBack(w'.log[n]).value;
              m.id in w'.fates && w'.fates[m.id] == n && m.id in w'.all && w'.all[m.id] == m
    {
      if n < |w.log| {
        assert w'.log[n] == w.log[n];
      }
    }
  }

  /** New entries, messages and fates do not disturb the record of receipts. */
  lemma RecordGrows(w: World, w': World)
    requires ReceiptsFit(w) && w'.receipts == w.receipts && w'.pending == w.pending && FatesStand(w, w')
    requires forall id :: id in w'.fates && id !in w.fates ==> !Swept(w', id)
    requires forall id :: id in w.fates ==> id in w.all && w.fates[id] < |w.log|
    requires forall id :: id in w.all ==> id in w'.all && w'.all[id] == w.all[id]
    ensures ReceiptsFit(w')
  {
    hide Kind;
    forall id | id in w'.fates && Asked(w', id) ensures ReceiptOf(w', id) {
      assert Asked(w, id) && ReceiptOf(w, id);
    }
    forall i | 0 <= i < |w'.receipts| ensures ReceiptFits(w', w'.receipts[i]) {
      assert ReceiptFits(w, w.receipts[i]);
    }
  }

  lemma OtherOneFate(w: World, c: Call, a: Answer, w': World)
    requires Valid(w.s) && OneFate(w) && !Sweeps(c) && Calls(w, c, a, w')
    ensures OneFate(w')
  {
    hide Valid, Step, Queued, Permitted, Explains, Fated, OneFate, GaveBack;
    OtherCalls(w.s, c, w'.s, a);
    if c.InsertMessage? {
      InsertOneFate(w, c.m, |w.log|, w');
    } else {
      FewerOneFate(w, |w.log|, w');
    }
  }

  lemma OtherAppends(w: World, c: Call, a: Answer, e: Entry, w': World)
    requires Valid(w.s) && !Sweeps(c) && Calls(w, c, a, w')
    requires e == EntryFor(w.s, c, w'.s, a)
    ensures Appends(w, e, Vanished(w.s, w'.s), w')
    ensures w'.receipts == w.receipts && w'.pending == w.pending
  {
    hide Valid, Step, Queued, Permitted, Explains, Fated, GaveBack;
    OtherCalls(w.s, c, w'.s, a);
  }

  lemma FatesKnown(w: World)
    requires Explained(w)
    ensures forall id :: id in w.fates ==> id in w.all && w.fates[id] < |w.log|
  {
    hide Explains;
    forall id | id in w.fates ensures id in w.all && w.fates[id] < |w.log| {
      assert ExplainedOne(w, id);
    }
  }

  /** What an entry that is no sweep removed was not swept. */
  lemma NoSweep(w: World, e: Entry, gone: set<string>, w': World)
    requires Appends(w, e, gone, w') && (e.Did? ==> !Sweeps(e.c))
    ensures forall id :: id in w'.fates && id !in w.fates ==> !Swept(w', id)
  {
    hide GaveBack, Fated;
    FatedAt(w.fates, gone, |w.log|);
    forall id | id in w'.fates && id !in w.fates ensures !Swept(w', id) {
      assert id in gone && Explains(e, w.s.messages[id]);
      assert w'.log[|w.log|] == e;
    }
  }

  lemma OtherKeepsInv(w: World, c: Call, a: Answer, w': World)
    requires Inv(w) && !Sweeps(c) && Calls(w, c, a, w')
    ensures OneFate(w') && Born(w') && Explained(w') && GivenOnce(w') && ReceiptsFit(w') && FatesStand(w, w')
  {
    hide Valid, Calls, Appends, OneFate, Born, Explained, GivenOnce, ReceiptsFit, Vanished;
    var e := EntryFor(w.s, c, w'.s, a);
    OtherOneFate(w, c, a, w');
    OtherAppends(w, c, a, e, w');
    EntryKeeps(w, e, Vanished(w.s, w'.s), w');
    NoSweep(w, e, Vanished(w.s, w'.s), w');
    FatesKnown(w);
    RecordGrows(w, w');
  }

  lemma EntryKeeps(w: World, e: Entry, gone: set<string>, w': World)
    requires OneFate(w) && Born(w) && Explained(w) && GivenOnce(w) && Appends(w, e, gone, w')
    ensures Born(w') && Explained(w') && GivenOnce(w') && FatesStand(w, w')
    ensures forall id :: id in w.all ==> id in w'.all && w'.all[id] == w.all[id]
  {
    hide Explains, GaveBack, Fated, Explained, GivenOnce, Born;
    FatesKept(w, gone, |w.log|, w');
    EntryBorn(w, e, gone, w');
    EntryExplained(w, e, gone, w');
    EntryGiven(w, e, gone, w');
    hide OneFate, Born, Explained, GivenOnce;
  }

  lemma SweepAppends(w: World, c: Call, a: Answer, e: Entry, w': World) returns (gone: set<string>, out: seq<Numbered>)
    requires OneFate(w) && Sweeps(c) && Calls(w, c, a, w')
    requires e == EntryFor(w.s, c, w'.s, a)
    ensures Appends(w, e, gone, w') && OneFate(w') && OwedFor(w.s, gone, out)
    ensures w'.all == w.all && w'.pending == w.pending && w'.receipts == w.receipts + Queued(a)
    ensures Queued(a) == seq(|out|, i requires 0 <= i < |out| => out[i].1)
  {
    hide Valid, Step, OwedFor, Queued, Explains, Fated;
    gone, out := SweepOwes(w.s, c, w'.s, a);
    assert Vanished(w.s, w'.s) == gone;
    assert GaveBack(e).None?;
    FewerOneFate(w, |w.log|, w');
    hide OneFate;
  }

  lemma SweepKeepsInv(w: World, c: Call, a: Answer, w': World)
    requires Inv(w) && Sweeps(c) && Calls(w, c, a, w')
    ensures OneFate(w') && Born(w') && Explained(w') && GivenOnce(w') && ReceiptsFit(w') && FatesStand(w, w')
  {
    hide Valid, Calls, OneFate, Born, Explained, GivenOnce, ReceiptsFit, Queued, OwedFor, Owes;
    var e := EntryFor(w.s, c, w'.s, a);
    var gone, out := SweepAppends(w, c, a, e, w');
    EntryKeeps(w, e, gone, w');
    FatesKnown(w);
    SweepReceipts(w, c, a, e, gone, out, w');
  }

  /** The receipts of a sweep are the first for their messages, and one for each it owes. */
  lemma SweepReceipts(w: World, c: Call, a: Answer, e: Entry, gone: set<string>, out: seq<Numbered>, w': World)
    requires OneFate(w) && ReceiptsFit(w) && Sweeps(c) && e.Did? && e.c == c && e.subs == w.s.receipts.Keys
    requires forall id :: id in w.fates ==> id in w.all && w.fates[id] < |w.log|
    requires gone <= w.s.messages.Keys && OwedFor(w.s, gone, out)
    requires w'.all == w.all && w'.pending == w.pending && w'.log == w.log + [e]
    requires w'.fates == Fated(w.fates, gone, |w.log|)
    requires w'.receipts == w.receipts + Queued(a)
    requires Queued(a) == seq(|out|, i requires 0 <= i < |out| => out[i].1)
    ensures ReceiptsFit(w')
  {
    hide Queued, Fated;
    var queued := Queued(a);
    FatesKept(w, gone, |w.log|, w');
    FatedAt(w.fates, gone, |w.log|);
    assert w'.log[|w.log|] == e;
    forall i | 0 <= i < |queued| ensures queued[i].msgId in gone && ReceiptFits(w', queued[i]) {
      SweepFits(w, c, e, gone, out[i].1, w') by {
        assert queued[i] == out[i].1;
      }
    }
    hide OneFate;
    forall i | 0 <= i < |w.receipts| ensures w.receipts[i].msgId !in gone && ReceiptFits(w', w.receipts[i]) {
      assert ReceiptFits(w, w.receipts[i]);
    }
    forall id | id in w'.fates && Asked(w', id) ensures ReceiptOf(w', id) {
      if id !in gone {
        assert Asked(w, id);
      }
      SweepQueued(w, queued, gone, out, id, w');
    }
    hide ReceiptFits, Kind;
    DistinctAppend(w.receipts, queued) by {
      forall i, j | 0 <= i < j < |queued| ensures queued[i].msgId != queued[j].msgId {
        assert queued[i] == out[i].1 && queued[j] == out[j].1;
      }
    }
  }

  lemma SweepFits(w: World, c: Call, e: Entry, gone: set<string>, r: Receipt, w': World)
    requires OneFate(w) && ReceiptsFit(w) && Sweeps(c) && gone <= w.s.messages.Keys && e.Did? && e.c == c
    requires e.subs == w.s.receipts.Keys
    requires r.msgId in gone && Owes(w.s, w.s.messages[r.msgId]) && r == ReceiptFor(w.s.messages[r.msgId], 410)
    requires w'.all == w.all && w'.pending == w.pending && w'.log == w.log + [e]
    requires w'.fates == Fated(w.fates, gone, |w.log|)
    ensures ReceiptFits(w', r)
  {
    hide ReceiptOf, Fated;
    FatedAt(w.fates, gone, |w.log|);
    assert w'.log[|w.log|] == e;
  }

  lemma SweepQueued(w: World, queued: seq<Receipt>, gone: set<string>, out: seq<Numbered>, id: string, w': World)
    requires OwedFor(w.s, gone, out) && queued == seq(|out|, i requires 0 <= i < |out| => out[i].1)
    requires w'.receipts == w.receipts + queued
    requires (id in gone && id in w.s.messages && Owes(w.s, w.s.messages[id])) || ReceiptOf(w, id)
    ensures ReceiptOf(w', id)
  {
    if id in gone && id in w.s.messages && Owes(w.s, w.s.messages[id]) {
      assert Receipted(out, id);
      var i :| 0 <= i < |out| && out[i].1.msgId == id;
      assert w'.receipts[|w.receipts| + i] == queued[i];
    } else {
      var i :| 0 <= i < |w.receipts| && w.receipts[i].msgId == id;
      assert w'.receipts[i] == w.receipts[i];
    }
  }

  lemma DistinctAppend(a: seq<Receipt>, b: seq<Receipt>)
    requires DistinctReceipts(a) && DistinctReceipts(b)
    requires forall i, j :: 0 <= i < |a| && 0 <= j < |b| ==> a[i].msgId != b[j].msgId
    ensures DistinctReceipts(a + b)
  {
  }

  /** What an acknowledgement deletes, it gives back, and nothing else goes. */
  lemma AckTakes(s: State, id: string, owner: ChannelKey, status: nat)
    requires Valid(s) && (status == 204 || status == 410)
    ensures var m := Deletable(s, id, Some(owner));
            var gone: set<string> := if m.Some? then {id} else {};
            Deleted(s, id, Some(owner)).messages == s.messages - gone && gone <= s.messages.Keys
            && Vanished(s, Deleted(s, id, Some(owner))) == gone
            && (m.Some? ==>
                  m.value.id == id && m.value == s.messages[id] && Explains(Acked(id, owner, status, m), m.value))
  {
    hide PushAgrees, QueuesAgree;
  }

  lemma AckAppends(w: World, id: string, owner: ChannelKey, status: nat, e: Entry, w': World)
    requires Valid(w.s) && OneFate(w) && AckDeletes(w, id, owner, status, w')
    requires e == Acked(id, owner, status, Deletable(w.s, id, Some(owner)))
    ensures Appends(w, e, if e.found.Some? then {id} else {}, w') && OneFate(w')
    ensures e.found.Some? ==> id !in w.fates
  {
    hide Valid, Explains, Deletable, Deleted, Fated;
    AckTakes(w.s, id, owner, status);
    var gone: set<string> := if e.found.Some? then {id} else {};
    FatedOne(w.fates, id, |w.log|);
    FewerOneFate(w, |w.log|, w');
  }

  lemma AckDeleteKeepsInv(w: World, id: string, owner: ChannelKey, status: nat, w': World)
    requires Inv(w) && AckDeletes(w, id, owner, status, w')
    ensures Inv(w') && FatesStand(w, w')
  {
    hide Valid, OneFate, Born, Explained, GivenOnce, ReceiptsFit, Appends, Deletable, Deleted;
    var e := Acked(id, owner, status, Deletable(w.s, id, Some(owner)));
    DeletedKeepsValid(w.s, id, Some(owner));
    AckAppends(w, id, owner, status, e, w');
    EntryKeeps(w, e, if e.found.Some? then {id} else {}, w');
    FatesKnown(w);
    AckRecord(w, id, e.found, e, w');
  }

  /** An acknowledged message is new to the record, so no receipt can be for it yet. */
  lemma AckRecord(w: World, id: string, m: Option<Message>, e: Entry, w': World)
    requires ReceiptsFit(w) && (m.Some? ==> id !in w.fates) && e.Acked?
    requires forall k :: k in w.fates ==> k in w.all && w.fates[k] < |w.log|
    requires w'.receipts == w.receipts && w'.all == w.all && w'.log == w.log + [e]
    requires w'.fates == if m.Some? then w.fates[id := |w.log|] else w.fates
    requires w'.pending == if m.Some? && m.value.rsub.Some? then w.pending + {id} else w.pending
    ensures ReceiptsFit(w')
  {
    var mid := w'.(pending := w.pending);
    assert FatesStand(w, mid);
    RecordGrows(w, mid);
    hide Kind;
    forall i | 0 <= i < |w'.receipts| ensures ReceiptFits(w', w'.receipts[i]) {
      assert ReceiptFits(mid, mid.receipts[i]) && ReceiptFits(w, w.receipts[i]);
    }
    forall k | k in w'.fates && Asked(w', k) ensures ReceiptOf(w', k) {
      assert Asked(mid, k) && ReceiptOf(mid, k);
    }
    forall k | k in w'.pending ensures AckStatus(w', k).Some? {
      if k in w.pending {
        assert AckStatus(mid, k).Some?;
      }
    }
  }

  /** The queues and the pending receipts do not enter the record of fates. */
  lemma AllNamed(w: World)
    requires OneFate(w)
    ensures forall id :: id in w.all ==> w.all[id].id == id
  {
  }

  lemma FatesApart(w: World, w': World)
    requires OneFate(w) && Born(w) && Explained(w) && GivenOnce(w) && w'.s.messages == w.s.messages
    requires w' == w.(s := w'.s, pending := w'.pending, receipts := w'.receipts)
    ensures OneFate(w') && Born(w') && Explained(w') && GivenOnce(w')
  {
    assert OneFate(w') by {
      hide Born, Explained, GivenOnce;
    }
    hide OneFate;
    LogApart(w, w');
  }

  lemma LogApart(w: World, w': World)
    requires Born(w) && Explained(w) && GivenOnce(w)
    requires w'.all == w.all && w'.born == w.born && w'.fates == w.fates && w'.log == w.log
    ensures Born(w') && Explained(w') && GivenOnce(w')
  {
    assert Born(w') by {
      hide Explained, GivenOnce;
    }
    hide Born;
    forall id | id in w'.fates ensures ExplainedOne(w', id) {
      hide GivenOnce, Explains;
      assert ExplainedOne(w, id);
    }
    hide Explained, ExplainedOne;
  }

  lemma AckOweKeepsInv(w: World, id: string, a: Answer, w': World)
    requires Inv(w) && AckOwes(w, id, a, w')
    ensures Inv(w') && FatesStand(w, w')
  {
    hide Valid, OneFate, Born, Explained, GivenOnce, Kind;
    ReceiptCallKeepsValid(w.s, EnqueueReceipt(ReceiptFor(w.all[id], AckStatus(w, id).value)), w'.s, a);
    AllNamed(w);
    FatesApart(w, w');
    AckReceipt(w, id, w');
  }

  lemma AckReceipt(w: World, id: string, w': World)
    requires ReceiptsFit(w) && id in w.pending && id in w.all && w.all[id].id == id && w.all[id].rsub.Some?
             && AckStatus(w, id).Some?
    requires w' == w.(s := w'.s, pending := w.pending - {id}, receipts := w'.receipts)
    requires w'.receipts == w.receipts || w'.receipts == w.receipts + [ReceiptFor(w.all[id], AckStatus(w, id).value)]
    ensures ReceiptsFit(w')
  {
    forall k | k in w'.fates && Asked(w', k) ensures ReceiptOf(w', k) {
      assert Asked(w, k) && ReceiptOf(w, k);
      var i :| 0 <= i < |w.receipts| && w.receipts[i].msgId == k;
      assert w'.receipts[i] == w.receipts[i];
    }
    forall i | 0 <= i < |w'.receipts| ensures ReceiptFits(w', w'.receipts[i]) {
      if i < |w.receipts| {
        assert ReceiptFits(w, w.receipts[i]);
      }
    }
  }

  lemma AckLostKeepsInv(w: World, id: string, w': World)
    requires Inv(w) && w' == w.(pending := w.pending - {id})
    ensures Inv(w') && FatesStand(w, w')
  {
    hide Valid, OneFate, Born, Explained, GivenOnce, Kind;
    FatesApart(w, w');
    forall k | k in w'.fates && Asked(w', k) ensures ReceiptOf(w', k) {
      assert Asked(w, k) && ReceiptOf(w, k);
    }
    forall i | 0 <= i < |w'.receipts| ensures ReceiptFits(w', w'.receipts[i]) {
      assert ReceiptFits(w, w.receipts[i]);
    }
  }

  lemma NextKeepsInv(w: World, w': World)
    requires Inv(w) && Next(w, w')
    ensures Inv(w') && FatesStand(w, w')
  {
    hide Valid, Step, OneFate, Born, Explained, GivenOnce, ReceiptsFit, Permitted, AckDeletes, AckOwes;
    var m :| Moves(w, m, w');
    match m {
      case Makes(c, a) =>
        StepKeepsValid(w.s, c, w'.s, a);
        if Sweeps(c) {
          SweepKeepsInv(w, c, a, w');
        } else {
          OtherKeepsInv(w, c, a, w');
        }
      case AckDelete(id, owner, status) => AckDeleteKeepsInv(w, id, owner, status, w');
      case AckOwe(id, a) => AckOweKeepsInv(w, id, a, w');
      case AckLost(id) => AckLostKeepsInv(w, id, w');
    }
  }

  lemma InitialInv(w: World)
    requires Initial(w)
    ensures Inv(w)
  {
  }

  lemma {:induction false} RunsKeepInv(run: seq<World>)
    requires IsRun(run)
    ensures Inv(run[|run| - 1])
    decreases |run|
  {
    hide Next, Inv;
    if |run| == 1 {
      InitialInv(run[0]);
    } else {
      var before := run[..|run| - 1];
      forall i | 0 <= i < |before| - 1 ensures Next(before[i], before[i + 1]) {
        assert before[i] == run[i] && before[i + 1] == run[i + 1];
      }
      RunsKeepInv(before);
      NextKeepsInv(run[|run| - 2], run[|run| - 1]);
    }
  }

  // -- The theorems ---------------------------------------------------------

  /** A fate once met is final: later moves neither change it nor bring the message back. */
  lemma FateIsFinal(w: World, w': World, id: string)
    requires Inv(w) && Next(w, w') && id in w.fates
    ensures id in w'.fates && w'.fates[id] == w.fates[id] && w.log <= w'.log && id !in w'.s.messages
  {
    NextKeepsInv(w, w');
    hide Next, Valid, Born, Explained, GivenOnce, ReceiptsFit;
  }

  /**
   After any run a message is stored or has one fate. The log shows what removed it, after its
   insertion: an insertion of another message into its topic slot, a call or an acknowledgement
   that gave it back, the reaper at or after its expiry, or a deletion that dropped its channel.
   It was given back exactly once if it was withdrawn or acknowledged, and never otherwise.
   */
  lemma StoredOrFated(run: seq<World>, id: string)
    requires IsRun(run) && id in run[|run| - 1].all
    ensures var w := run[|run| - 1];
            (id in w.s.messages) != (id in w.fates)
            && (id in w.s.messages ==> w.s.messages[id] == w.all[id])
            && (id in w.fates ==>
                  id in w.born && w.born[id] < w.fates[id] < |w.log| && Explains(w.log[w.fates[id]], w.all[id])
                  && w.log[w.born[id]].Did? && w.log[w.born[id]].c == InsertMessage(w.all[id]))
            && forall n :: 0 <= n < |w.log| && GaveBack(w.log[n]).Some? && GaveBack(w.log[n]).value.id == id ==>
                 id in w.fates && n == w.fates[id]
    ensures var w := run[|run| - 1];
            id in w.fates && (Kind(w.log[w.fates[id]]).Withdrawn? || Kind(w.log[w.fates[id]]).Acknowledged?) ==>
              GaveBack(w.log[w.fates[id]]) == Some(w.all[id])
  {
    hide Next, Initial, Valid, ReceiptsFit, GaveBack, Explains;
    RunsKeepInv(run);
    var w := run[|run| - 1];
    hide IsRun;
    assert w.all[id].id == id;
    if id in w.fates {
      assert ExplainedOne(w, id);
      if Kind(w.log[w.fates[id]]).Withdrawn? || Kind(w.log[w.fates[id]]).Acknowledged? {
        TakenGivesBack(w.log[w.fates[id]], w.all[id]);
      }
    }
    hide Explained, Kind;
  }

  lemma TakenGivesBack(e: Entry, m: Message)
    requires Explains(e, m) && (Kind(e).Withdrawn? || Kind(e).Acknowledged?)
    ensures GaveBack(e) == Some(m)
  {
  }

  /**
   After any run, a message that a deletion or the reaper removed has a 410 queued, exactly one,
   if and only if it named a receipt subscription that existed then; one that was replaced or
   withdrawn has none; one that was acknowledged has at most one, with the status its
   acknowledgement asked for.
   */
  lemma ReceiptsConserved(run: seq<World>, id: string)
    requires IsRun(run) && id in run[|run| - 1].fates
    ensures var w := run[|run| - 1];
            w.fates[id] < |w.log|
            && (forall i, j :: 0 <= i < j < |w.receipts| ==> !(w.receipts[i].msgId == id == w.receipts[j].msgId))
            && match Kind(w.log[w.fates[id]])
               case Replaced => !ReceiptOf(w, id)
               case Withdrawn => !ReceiptOf(w, id)
               case Acknowledged =>
                 forall i :: 0 <= i < |w.receipts| && w.receipts[i].msgId == id ==>
                   w.receipts[i] == Receipt(w.receipts[i].rsub, id, w.log[w.fates[id]].status)
                   && id in w.all && w.all[id].rsub == Some(w.receipts[i].rsub)
               case _ =>
                 id in w.all && w.log[w.fates[id]].Did?
                 && (ReceiptOf(w, id) <==>
                       w.all[id].rsub.Some? && w.all[id].rsub.value in w.log[w.fates[id]].subs)
                 && forall i :: 0 <= i < |w.receipts| && w.receipts[i].msgId == id ==>
                      w.receipts[i].status == 410 && w.all[id].rsub == Some(w.receipts[i].rsub)
  {
    hide Next, Initial, Valid, OneFate, Born, GivenOnce, ReceiptsFit, Explains;
    RunsKeepInv(run);
    var w := run[|run| - 1];
    hide IsRun;
    assert ExplainedOne(w, id);
    hide Explained, ExplainedOne;
    ReceiptsTold(w, id);
    hide Kind;
  }

  /** What the invariant says of the receipts of one message. */
  lemma ReceiptsTold(w: World, id: string)
    requires ReceiptsFit(w) && id in w.fates && w.fates[id] < |w.log|
    ensures DistinctReceipts(w.receipts)
    ensures forall i :: 0 <= i < |w.receipts| && w.receipts[i].msgId == id ==>
              ReceiptFits(w, w.receipts[i])
    ensures Asked(w, id) ==> ReceiptOf(w, id)
  {
    hide ReceiptFits;
  }
}
