/**
 One user agent session: what it has sent, what awaits acknowledgement, and whether more of
 the backlog may be stored. The client's frames and the hub's events drive it; the store is
 the in-memory one. A backlog drained on a quiet store reaches the client whole and in order.
 */
module Session {
  import opened Prelude
  import opened Types
  import opened StoreSpec
  import Text
  import Hub
  import MemoryStore

  /** One entry of an acknowledgement frame. */
  datatype Update = Update(channelId: string, version: string, code: Option<nat>)

  predicate HexDigit(c: char) {
    '0' <= c <= '9' || 'a' <= c <= 'f' || 'A' <= c <= 'F'
  }

  function ToLower(s: string): (t: string)
    ensures |t| == |s| && forall i :: 0 <= i < |s| ==> t[i] == Text.Lower(s[i])
  {
    seq(|s|, i requires 0 <= i < |s| => Text.Lower(s[i]))
  }

  /** `subscription::channel_id`: a UUID in any letter case, lowercased. */
  function ChannelId(s: string): (r: Option<string>)
    ensures r.Some? ==> IsChannel(r.value) && Text.SameIgnoringCase(s, r.value)
  {
    if |s| == 36
       && forall i :: 0 <= i < |s| ==>
            if i == 8 || i == 13 || i == 18 || i == 23 then s[i] == '-' else HexDigit(s[i])
    then Some(ToLower(s)) else None
  }

  /** Every spelling of a channel id is read as that channel. */
  lemma ChannelIdReads(s: string, ch: string)
    requires IsChannel(ch)
    ensures ChannelId(s) == Some(ch) <==> Text.SameIgnoringCase(s, ch)
  {
    if Text.SameIgnoringCase(s, ch) {
      forall i | 0 <= i < |s|
        ensures if i == 8 || i == 13 || i == 18 || i == 23 then s[i] == '-' else HexDigit(s[i])
      {
        assert Text.Lower(s[i]) == Text.Lower(ch[i]);
      }
      assert ToLower(s) == ch;
    }
  }

  /** The receipt status of an acknowledgement code: 100 delivered, 101 and 102 not usable. */
  function StatusOf(code: Option<nat>): Option<nat> {
    match if code.Some? then code.value else 100
    case 100 => Some(204)
    case 101 => Some(410)
    case 102 => Some(410)
    case _ => None
  }

  /** What an acknowledgement deletes: the channel it names and a well-formed id, or nothing. */
  function Target(u: Update): Option<(string, string)> {
    if StatusOf(u.code).None? || ChannelId(u.channelId).None? || !IsId(u.version) then None
    else Some((u.version, ChannelId(u.channelId).value))
  }

  /** The message an acknowledgement deletes. */
  function Freed(s: State, uaid: string, u: Update): Option<Message> {
    match Target(u)
    case None => None
    case Some((id, ch)) => Deletable(s, id, Some((uaid, ch)))
  }

  /** An acknowledgement deletes its message and queues the receipt the message asked for. */
  ghost predicate AckStep(s: State, uaid: string, u: Update, s': State) {
    match Freed(s, uaid, u)
    case None => s' == s
    case Some(m) =>
      var mid := Without(s, {u.version});
      if m.rsub.Some? && m.rsub.value in s.receipts
      then exists n :: n > s.last && s' == Enqueued(mid, n, ReceiptFor(m, StatusOf(u.code).value))
      else s' == mid
  }

  /** The entry names this stored message of the client's own: its id, and its channel in some letter case. */
  predicate NamesOwn(u: Update, uaid: string, m: Message) {
    u.version == m.id && IsId(m.id) && m.uaid == uaid
    && IsChannel(m.channelId) && Text.SameIgnoringCase(u.channelId, m.channelId)
  }

  /** The message `m` is gone and the receipt it asked for is queued with `status`, if it can be. */
  ghost predicate FreedWith(s: State, m: Message, status: nat, s': State) {
    s'.messages == s.messages - {m.id} && s'.receipts.Keys == s.receipts.Keys
    && (forall q :: q in s.receipts && m.rsub != Some(q) ==> s'.receipts[q] == s.receipts[q])
    && (m.rsub.Some? && m.rsub.value in s.receipts ==>
          exists n ::
            QueuedAs(s.receipts[m.rsub.value], n, Receipt(m.rsub.value, m.id, status), s'.receipts[m.rsub.value]))
  }

  /** The queue gained this one receipt under a number it did not use. */
  predicate QueuedAs(was: Queue, n: nat, r: Receipt, q: Queue) {
    n !in was && q.Keys == was.Keys + {n} && q[n] == r && forall k :: k in was ==> q[k] == was[k]
  }

  /**
   What an acknowledgement does, by its code: no code or 100 frees the message with a 204, 101 and
   102 free it with a 410, any other code and any entry that names no own message do nothing.
   */
  ghost predicate AckMeaning(s: State, uaid: string, u: Update, s': State) {
    if u.version !in s.messages || !NamesOwn(u, uaid, s.messages[u.version]) then s' == s
    else if u.code.None? || u.code.value == 100 then FreedWith(s, s.messages[u.version], 204, s')
    else if u.code.value == 101 || u.code.value == 102 then FreedWith(s, s.messages[u.version], 410, s')
    else s' == s
  }

  lemma AckMeans(s: State, uaid: string, u: Update, s': State)
    requires Valid(s) && AckStep(s, uaid, u, s')
    ensures AckMeaning(s, uaid, u, s')
  {
    hide IsId, IsChannel, ChannelId, Valid, FreedWith;
    FreedIs(s, uaid, u);
    if Freed(s, uaid, u).Some? {
      FreesWith(s, s.messages[u.version], StatusOf(u.code).value, s');
    }
  }

  /** An entry frees the own message it names, given a code that frees. */
  lemma FreedIs(s: State, uaid: string, u: Update)
    requires Valid(s)
    ensures Freed(s, uaid, u) ==
            if u.version in s.messages && NamesOwn(u, uaid, s.messages[u.version]) && StatusOf(u.code).Some?
            then Some(s.messages[u.version]) else None
    ensures Freed(s, uaid, u).Some? ==> s.messages[u.version].id == u.version
  {
    hide IsId, IsChannel, ChannelId, PushAgrees, QueuesAgree;
    if u.version in s.messages && IsChannel(s.messages[u.version].channelId) {
      ChannelIdReads(u.channelId, s.messages[u.version].channelId);
    }
  }

  lemma FreesWith(s: State, m: Message, status: nat, s': State)
    requires Valid(s)
    requires var mid := Without(s, {m.id});
             if m.rsub.Some? && m.rsub.value in s.receipts
             then exists n :: n > s.last && s' == Enqueued(mid, n, ReceiptFor(m, status))
             else s' == mid
    ensures FreedWith(s, m, status, s')
  {
    hide TopicsAgree, PushAgrees;
    if m.rsub.Some? && m.rsub.value in s.receipts {
      var r := ReceiptFor(m, status);
      var n :| n > s.last && s' == Enqueued(Without(s, {m.id}), n, r);
      assert QueuedAs(s.receipts[m.rsub.value], n, r, s'.receipts[m.rsub.value]);
    }
  }

  lemma AckAlwaysMeans(s: State, uaid: string, u: Update)
    requires Valid(s)
    ensures forall s' :: AckStep(s, uaid, u, s') ==> AckMeaning(s, uaid, u, s')
  {
    hide AckStep, AckMeaning, Valid;
    forall s' | AckStep(s, uaid, u, s') ensures AckMeaning(s, uaid, u, s') {
      AckMeans(s, uaid, u, s');
    }
  }

  /** The messages of `list` not yet sent. */
  function Unsent(list: seq<Message>, sent: set<string>): (r: seq<Message>)
    ensures forall m :: m in r <==> m in list && m.id !in sent
  {
    if |list| == 0 then []
    else
      var front := Unsent(list[..|list| - 1], sent);
      var m := list[|list| - 1];
      assert list == list[..|list| - 1] + [m];
      if m.id in sent then front else front + [m]
  }

  predicate Distinct(list: seq<Message>) {
    forall i, j :: 0 <= i < j < |list| ==> list[i].id != list[j].id
  }

  function Ids(list: seq<Message>): set<string> {
    set m | m in list :: m.id
  }

  class Session {
    const store: MemoryStore.MemoryStore
    const uaid: string
    const batch: nat
    var sent: set<string>
    var unacked: set<string>
    var more: bool
    /** The notifications written to the socket, in order. */
    var outbox: seq<Message>

    /** Each id was sent at most once, and only what was sent awaits acknowledgement. */
    ghost predicate Valid()
      reads this
    {
      unacked <= sent && Ids(outbox) == sent && Distinct(outbox)
    }

    constructor (store: MemoryStore.MemoryStore, uaid: string, batch: nat)
      ensures Valid() && this.store == store && this.uaid == uaid && this.batch == batch
      ensures sent == {} && unacked == {} && !more && outbox == []
    {
      this.store, this.uaid, this.batch := store, uaid, batch;
      sent, unacked, more, outbox := {}, {}, false, [];
    }

    /** Send a message, once per connection. */
    method Notify(m: Message) returns (added: bool)
      requires Valid()
      modifies `sent, `unacked, `outbox
      ensures Valid() && added == (m.id !in old(sent)) && m.id in sent
      ensures outbox == if added then old(outbox) + [m] else old(outbox)
      ensures sent == old(sent) + {m.id}
      ensures unacked == if added then old(unacked) + {m.id} else old(unacked)
    {
      if m.id in sent {
        return false;
      }
      sent := sent + {m.id};
      unacked := unacked + {m.id};
      AppendIds(outbox, m);
      outbox := outbox + [m];
      added := true;
    }

    /** Read a batch from the store and send what this connection has not sent; none ends the backlog. */
    method NextBatch(now: nat) returns (ghost pending: seq<Message>)
      requires Valid() && store.Valid()
      modifies `sent, `unacked, `outbox, `more
      ensures Valid() && IsPending(store.messages, uaid, now, batch, pending)
      ensures outbox == old(outbox) + Unsent(pending, old(sent))
      ensures sent == old(sent) + Ids(pending)
      ensures unacked == old(unacked) + Ids(Unsent(pending, old(sent)))
      ensures more <==> |pending| == batch && Unsent(pending, old(sent)) != []
    {
      hide IsPending, Unsent, Ids, Distinct, StoreSpec.Valid;
      var list := store.Pending(uaid, now, batch);
      pending := list;
      PendingDistinct(store.messages, uaid, now, batch, list);
      more := |list| == batch;
      var count := 0;
      NothingUnsent(old(sent));
      assert list[..0] == [];
      for i := 0 to |list|
        invariant Valid() && more == (|list| == batch)
        invariant outbox == old(outbox) + Unsent(list[..i], old(sent))
        invariant sent == old(sent) + Ids(list[..i])
        invariant unacked == old(unacked) + Ids(Unsent(list[..i], old(sent)))
        invariant count == |Unsent(list[..i], old(sent))|
      {
        UnsentStep(list, old(sent), i);
        var newly := Notify(list[i]);
        if newly {
          count := count + 1;
        }
      }
      assert list[..|list|] == list;
      if count == 0 {
        more := false;
      }
    }

    /** One acknowledgement. Unknown codes and malformed entries only stop it from being awaited. */
    method Ack(u: Update)
      requires Valid() && store.Valid()
      modifies `unacked, store
      ensures Valid() && store.Valid() && unacked == old(unacked) - {u.version}
      ensures AckStep(old(store.State()), uaid, u, store.State())
      ensures AckMeaning(old(store.State()), uaid, u, store.State())
    {
      hide StoreSpec.Valid, IsId, ChannelId, AckMeaning;
      AckAlwaysMeans(store.State(), uaid, u);
      unacked := unacked - {u.version};
      var status := StatusOf(u.code);
      if status.None? {
        return;
      }
      var ch := ChannelId(u.channelId);
      if ch.None? {
        return;
      }
      if !IsId(u.version) {
        return;
      }
      var m := store.DeleteMessage(u.version, Some((uaid, ch.value)));
      if m.Some? && m.value.rsub.Some? {
        ghost var mid := store.State();
        var n := store.EnqueueReceipt(Receipt(m.value.rsub.value, m.value.id, status.value));
        if n.Some? {
          assert n.value > mid.last && store.State() == Enqueued(mid, n.value, ReceiptFor(m.value, status.value));
        }
      }
    }

    /** An acknowledgement frame; when nothing is awaited any more the next batch goes out. */
    method HandleAck(updates: seq<Update>, now: nat)
      returns (ghost read: bool, ghost mid: State, ghost pending: seq<Message>)
      requires Valid() && store.Valid()
      modifies this, store
      ensures Valid() && store.Valid() && store.State() == mid
      ensures AckSteps(old(store.State()), uaid, updates, mid)
      ensures read <==> old(unacked) - Versions(updates) == {} && old(more)
      ensures !read ==>
                sent == old(sent) && outbox == old(outbox) && more == old(more)
                && unacked == old(unacked) - Versions(updates)
      ensures read ==>
        IsPending(mid.messages, uaid, now, batch, pending)
        && outbox == old(outbox) + Unsent(pending, old(sent)) && sent == old(sent) + Ids(pending)
        && unacked == Ids(Unsent(pending, old(sent)))
        && (more <==> |pending| == batch && Unsent(pending, old(sent)) != [])
    {
      hide StoreSpec.Valid, IsPending, AckStep;
      for i := 0 to |updates|
        invariant Valid() && store.Valid() && AckSteps(old(store.State()), uaid, updates[..i], store.State())
        invariant unacked == old(unacked) - Versions(updates[..i])
        invariant sent == old(sent) && outbox == old(outbox) && more == old(more)
      {
        assert updates[..i + 1] == updates[..i] + [updates[i]];
        ghost var before := store.State();
        Ack(updates[i]);
        AckStepsExtend(old(store.State()), uaid, updates[..i], before, updates[i], store.State());
      }
      assert updates[..|updates|] == updates;
      mid := store.State();
      read, pending := unacked == {} && more, [];
      if unacked == {} && more {
        pending := NextBatch(now);
      }
    }

    /** One wake-up by the hub. Returns whether the session goes on. */
    method OnEvent(e: Option<Hub.Event>) returns (open: bool)
      requires Valid()
      modifies `sent, `unacked, `outbox
      ensures Valid() && open == (e.Some? && !e.value.Gone?)
      ensures outbox == if e.Some? && e.value.Pushed? && e.value.m.id !in old(sent)
                        then old(outbox) + [e.value.m] else old(outbox)
      ensures unacked == if e.Some? && e.value.Pushed? && e.value.m.id !in old(sent)
                         then old(unacked) + {e.value.m.id} else old(unacked)
      ensures sent == if e.Some? && e.value.Pushed? then old(sent) + {e.value.m.id} else old(sent)
    {
      match e {
        case Some(Pushed(m)) =>
          var added := Notify(m);
          open := true;
        case Some(Receipted(_, _)) => open := true;
        case Some(Gone) => open := false;
        case None => open := false;
      }
    }
  }

  function Versions(updates: seq<Update>): set<string> {
    set u | u in updates :: u.version
  }

  /** A frame of acknowledgements, one after the other. */
  ghost predicate AckSteps(s: State, uaid: string, updates: seq<Update>, s': State)
    decreases |updates|
  {
    if |updates| == 0 then s' == s
    else
      var front, last := updates[..|updates| - 1], updates[|updates| - 1];
      exists mid :: AckSteps(s, uaid, front, mid) && AckStep(mid, uaid, last, s')
  }

  lemma AckStepsExtend(s: State, uaid: string, updates: seq<Update>, mid: State, u: Update, s': State)
    requires AckSteps(s, uaid, updates, mid) && AckStep(mid, uaid, u, s')
    ensures AckSteps(s, uaid, updates + [u], s')
  {
    hide AckStep;
    assert (updates + [u])[..|updates|] == updates;
  }

  lemma AppendIds(outbox: seq<Message>, m: Message)
    requires Distinct(outbox) && m.id !in Ids(outbox)
    ensures Distinct(outbox + [m]) && Ids(outbox + [m]) == Ids(outbox) + {m.id}
  {
    forall i | 0 <= i < |outbox| ensures outbox[i].id in Ids(outbox) {
      assert outbox[i] in outbox;
    }
    forall x ensures x in outbox + [m] <==> x in outbox || x == m {}
  }

  lemma NothingUnsent(sent: set<string>)
    ensures Unsent([], sent) == [] && Ids([]) == {}
  {
  }

  lemma UnsentStep(list: seq<Message>, sent: set<string>, i: nat)
    requires i < |list| && Distinct(list)
    ensures list[i].id !in Ids(list[..i])
    ensures Ids(list[..i + 1]) == Ids(list[..i]) + {list[i].id}
    ensures Unsent(list[..i + 1], sent) == Unsent(list[..i], sent) + (if list[i].id in sent then [] else [list[i]])
    ensures Ids(Unsent(list[..i + 1], sent)) ==
            Ids(Unsent(list[..i], sent)) + (if list[i].id in sent then {} else {list[i].id})
  {
    assert list[..i + 1][..i] == list[..i];
    assert list[..i + 1] == list[..i] + [list[i]];
  }

  lemma PendingDistinct(messages: map<string, Message>, uaid: string, now: nat, limit: nat, list: seq<Message>)
    requires IsPending(messages, uaid, now, limit, list)
    ensures Distinct(list)
  {
    forall i, j | 0 <= i < j < |list| ensures list[i].id != list[j].id {
      OlderTotal(list[i], list[j]);
      OlderTotal(list[i], list[i]);
      assert Due(messages, uaid, now, list[i]) && Due(messages, uaid, now, list[j]);
    }
  }

  // -- Draining the backlog -------------------------------------------------

  /** The client acknowledges a message it was sent, on its own channel, with a code that frees it. */
  predicate Honest(m0: map<string, Message>, uaid: string, u: Update) {
    StatusOf(u.code).Some? && IsId(u.version) && u.version in m0 && m0[u.version].uaid == uaid
    && ChannelId(u.channelId) == Some(m0[u.version].channelId)
  }

  /** How far the backlog `m0` has been drained at the time `last` of the latest read. */
  ghost predicate Draining(
    m0: map<string, Message>, messages: map<string, Message>, uaid: string,
    outbox: seq<Message>, unacked: set<string>, more: bool, last: nat)
  {
    messages == m0 - (Ids(outbox) - unacked)
    && unacked <= Ids(outbox)
    && OldestFirst(outbox)
    && (forall m :: m in outbox ==> m.id in m0 && m0[m.id] == m && m.uaid == uaid)
    && (forall m, x :: Due(m0, uaid, last, m) && m.id !in Ids(outbox) && x in outbox ==> Older(x, m))
    && (!more ==> forall m :: Due(m0, uaid, last, m) ==> m.id in Ids(outbox))
  }

  lemma FreshSession(m0: map<string, Message>, uaid: string, now: nat)
    ensures Draining(m0, m0, uaid, [], {}, true, now)
  {
    var none: seq<Message> := [];
    assert Ids(none) == {} && m0 - {} == m0;
    assert forall m :: m !in none;
  }

  lemma AllUnsent(list: seq<Message>, sent: set<string>)
    requires forall m :: m in list ==> m.id !in sent
    ensures Unsent(list, sent) == list
  {
    if |list| > 0 {
      var front := list[..|list| - 1];
      assert list == front + [list[|list| - 1]];
      assert forall m :: m in front ==> m in list;
      AllUnsent(front, sent);
    }
  }

  lemma IdsOf(list: seq<Message>, id: string)
    ensures id in Ids(list) <==> exists m :: m in list && m.id == id
  {
  }

  lemma IdsAppend(a: seq<Message>, b: seq<Message>)
    ensures Ids(a + b) == Ids(a) + Ids(b)
  {
    forall m ensures m in a + b <==> m in a || m in b {}
  }

  /** When everything sent is acknowledged, what is due in the store is what is due and unsent. */
  lemma DueUnsent(
    m0: map<string, Message>, messages: map<string, Message>, uaid: string, outbox: seq<Message>,
    more: bool, last: nat, now: nat, m: Message)
    requires Draining(m0, messages, uaid, outbox, {}, more, last) && last <= now
    ensures Due(messages, uaid, now, m) <==> Due(m0, uaid, now, m) && m.id !in Ids(outbox)
    ensures Due(m0, uaid, now, m) ==> Due(m0, uaid, last, m)
    ensures Due(messages, uaid, now, m) ==> forall x :: x in outbox ==> Older(x, m)
  {
    hide Ids, Older, OldestFirst;
    assert Ids(outbox) - {} == Ids(outbox);
  }

  lemma OldestAppend(outbox: seq<Message>, pending: seq<Message>)
    requires OldestFirst(outbox) && OldestFirst(pending)
    requires forall x, m :: x in outbox && m in pending ==> Older(x, m)
    ensures OldestFirst(outbox + pending)
  {
    hide Older;
    var all := outbox + pending;
    forall i, j | 0 <= i < j < |all| ensures Older(all[i], all[j]) {
      if i < |outbox| <= j {
        assert all[i] in outbox && all[j] in pending;
      }
    }
  }

  /** What is due after a batch and was not in it comes after all that was. */
  lemma LaterThanBatch(
    messages: map<string, Message>, uaid: string, now: nat, batch: nat, pending: seq<Message>, m: Message)
    requires IsPending(messages, uaid, now, batch, pending) && Due(messages, uaid, now, m) && m !in pending
    ensures |pending| == batch && forall x :: x in pending ==> Older(x, m)
  {
    hide Older, Due, OldestFirst;
    forall x | x in pending ensures Older(x, m) {
      var i :| 0 <= i < |pending| && pending[i] == x;
    }
  }

  /** A read when everything sent is acknowledged: all of it is new and newer than what was sent. */
  lemma ReadDrains(
    m0: map<string, Message>, messages: map<string, Message>, uaid: string, batch: nat,
    outbox: seq<Message>, more: bool, last: nat, now: nat, pending: seq<Message>)
    requires Draining(m0, messages, uaid, outbox, {}, more, last) && last <= now && batch >= 1
    requires IsPending(messages, uaid, now, batch, pending)
    ensures Unsent(pending, Ids(outbox)) == pending
    ensures Draining(m0, messages, uaid, outbox + pending, Ids(pending), |pending| == batch && pending != [], now)
    ensures |pending| == batch ==> Ids(pending) != {}
    ensures forall m :: m in pending ==> m.expiry > now
  {
    hide Ids, Older, OldestFirst, Unsent;
    var all := outbox + pending;
    forall m ensures Due(messages, uaid, now, m) <==> Due(m0, uaid, now, m) && m.id !in Ids(outbox)
             ensures Due(messages, uaid, now, m) ==> forall x :: x in outbox ==> Older(x, m)
    {
      DueUnsent(m0, messages, uaid, outbox, more, last, now, m);
    }
    AllUnsent(pending, Ids(outbox));
    OldestAppend(outbox, pending);
    IdsAppend(outbox, pending);
    forall m | m in pending ensures m.id !in Ids(outbox) {}
    forall id ensures id in Ids(pending) <==> exists m :: m in pending && m.id == id {
      IdsOf(pending, id);
    }
    assert Ids(all) - Ids(pending) == Ids(outbox) - {};
    forall m | Due(m0, uaid, now, m) && m.id !in Ids(all)
      ensures |pending| == batch && (forall x :: x in all ==> Older(x, m))
    {
      assert m !in pending;
      LaterThanBatch(messages, uaid, now, batch, pending, m);
    }
    if |pending| == batch {
      assert pending[0] in pending;
    }
  }

  lemma AckFrees(m0: map<string, Message>, s: State, uaid: string, u: Update, s': State)
    requires AckStep(s, uaid, u, s') && Honest(m0, uaid, u)
    requires forall id :: id in s.messages ==> id in m0 && s.messages[id] == m0[id]
    ensures s'.messages == s.messages - {u.version}
  {
    hide ChannelId, IsId;
  }

  /** An honest frame frees exactly the messages it names. */
  lemma {:induction false} FrameFrees(m0: map<string, Message>, s: State, uaid: string, updates: seq<Update>, s': State)
    requires AckSteps(s, uaid, updates, s')
    requires forall id :: id in s.messages ==> id in m0 && s.messages[id] == m0[id]
    requires forall u :: u in updates ==> Honest(m0, uaid, u)
    ensures s'.messages == s.messages - Versions(updates)
    decreases |updates|
  {
    hide ChannelId, IsId, Honest, AckStep;
    if |updates| == 0 {
      assert Versions(updates) == {};
    } else {
      var front, u := updates[..|updates| - 1], updates[|updates| - 1];
      var mid :| AckSteps(s, uaid, front, mid) && AckStep(mid, uaid, u, s');
      assert updates == front + [u];
      assert forall v :: v in updates <==> v in front || v == u;
      FrameFrees(m0, s, uaid, front, mid);
      assert Versions(updates) == Versions(front) + {u.version};
      AckFrees(m0, mid, uaid, u, s');
    }
  }

  lemma FreedMore(m0: map<string, Message>, sent: set<string>, unacked: set<string>, freed: set<string>)
    requires freed <= unacked <= sent
    ensures m0 - (sent - unacked) - freed == m0 - (sent - (unacked - freed))
  {
  }

  lemma FrameDrains(
    m0: map<string, Message>, messages: map<string, Message>, uaid: string,
    outbox: seq<Message>, unacked: set<string>, more: bool, last: nat, freed: set<string>)
    requires Draining(m0, messages, uaid, outbox, unacked, more, last) && freed <= unacked
    ensures Draining(m0, messages - freed, uaid, outbox, unacked - freed, more, last)
    ensures freed != {} ==> |messages - freed| < |messages|
  {
    hide Ids, Due, Older, OldestFirst;
    FreedMore(m0, Ids(outbox), unacked, freed);
    if freed != {} {
      var id :| id in freed;
      AwaitedStored(m0, messages, uaid, outbox, unacked, more, last, id);
      Smaller((messages - freed).Keys, messages.Keys, id);
    }
  }

  lemma AwaitedStored(
    m0: map<string, Message>, messages: map<string, Message>, uaid: string,
    outbox: seq<Message>, unacked: set<string>, more: bool, last: nat, id: string)
    requires Draining(m0, messages, uaid, outbox, unacked, more, last) && id in unacked
    ensures id in messages
  {
    IdsOf(outbox, id);
  }

  lemma Smaller(a: set<string>, b: set<string>, id: string)
    requires a <= b && id in b && id !in a
    ensures |a| < |b|
  {
    assert b == a + (b - a) && id in b - a;
  }

  /** Some of the awaited messages, acknowledged on their channels in any spelling, with any freeing code. */
  method ClientFrame(unacked: set<string>, outbox: seq<Message>, ghost m0: map<string, Message>, ghost uaid: string)
    returns (updates: seq<Update>)
    requires unacked != {} && unacked <= Ids(outbox)
    requires forall m :: m in outbox ==>
               m.id in m0 && m0[m.id] == m && m.uaid == uaid && IsId(m.id) && IsChannel(m.channelId)
    ensures Versions(updates) <= unacked && Versions(updates) != {}
    ensures forall u :: u in updates ==> Honest(m0, uaid, u)
  {
    hide ChannelId, IsId, IsChannel;
    updates := [];
    var todo, going := unacked, true;
    while todo != {} && going
      invariant todo <= unacked && Versions(updates) <= unacked && (updates == [] ==> todo == unacked)
      invariant forall u :: u in updates ==> Honest(m0, uaid, u)
      invariant !going ==> updates != []
      decreases |todo|
    {
      var id :| id in todo;
      IdsOf(outbox, id);
      var m :| m in outbox && m.id == id;
      var spelling: string := *;
      ChannelIdReads(m.channelId, m.channelId);
      if ChannelId(spelling) != Some(m.channelId) {
        spelling := m.channelId;
      }
      var code: Option<nat> := *;
      if code.Some? && code.value != 100 && code.value != 101 && code.value != 102 {
        code := None;
      }
      var u := Update(spelling, id, code);
      assert forall v :: v in updates + [u] <==> v in updates || v == u;
      updates := updates + [u];
      todo := todo - {id};
      going := *;
    }
    assert updates[0] in updates;
    assert updates[0].version in Versions(updates);
  }

  /** What holds between two frames of a drain. */
  ghost predicate MidDrain(session: Session, m0: map<string, Message>, now: nat, last: nat)
    reads session, session.store
  {
    session.Valid() && session.store.Valid() && session.batch >= 1 && last >= now
    && Draining(m0, session.store.messages, session.uaid, session.outbox, session.unacked, session.more, last)
    && (session.unacked == {} ==> !session.more)
    && forall m :: m in session.outbox ==> m.expiry > now
  }

  /** One frame of the client, and the batch it may bring. */
  method Turn(session: Session, ghost m0: map<string, Message>, ghost now: nat, last: nat) returns (read: nat)
    requires MidDrain(session, m0, now, last) && session.unacked != {}
    requires forall id :: id in m0 ==> m0[id].id == id && IsId(id) && IsChannel(m0[id].channelId)
    modifies session, session.store
    ensures MidDrain(session, m0, now, read)
    ensures |session.store.messages| < old(|session.store.messages|)
  {
    hide StoreSpec.Valid, IsId, IsChannel, ChannelId, IsPending, Draining, AckSteps, OldestFirst, Distinct, Ids;
    hide Honest, Due;
    ghost var s, outbox := session.store.State(), session.outbox;
    var unacked, more := session.unacked, session.more;
    DrainingFacts(m0, s.messages, session.uaid, outbox, unacked, more, last);
    var updates := ClientFrame(session.unacked, session.outbox, m0, session.uaid);
    var wait := Wait();
    var later := last + wait;
    ghost var again, mid, batch := session.HandleAck(updates, later);
    FrameFrees(m0, s, session.uaid, updates, mid);
    FrameDrains(m0, s.messages, session.uaid, outbox, unacked, more, last, Versions(updates));
    if unacked - Versions(updates) == {} && more {
      read := later;
      ReadDrains(m0, mid.messages, session.uaid, session.batch, outbox, more, last, read, batch);
    } else {
      read := last;
    }
  }

  /** The time until the client's next frame. */
  method Wait() returns (time: nat)
  {
    time := *;
  }

  /**
   On an otherwise quiet store, with any batch size of at least one, a client that acknowledges
   what it is sent receives every message still unexpired at the last read, each once, in
   (accepted, id) order, and the store keeps the rest.
   */
  method Drain(session: Session, now: nat) returns (last: nat)
    requires session.Valid() && session.store.Valid() && session.batch >= 1
    requires session.sent == {} && session.unacked == {} && session.outbox == []
    requires forall id :: id in session.store.messages ==>
      IsId(id) && IsChannel(session.store.messages[id].channelId)
    modifies session, session.store
    ensures last >= now && Distinct(session.outbox) && OldestFirst(session.outbox)
    ensures var m0 := old(session.store.messages);
            (forall m :: m in session.outbox ==>
               m.id in m0 && m0[m.id] == m && m.uaid == session.uaid && m.expiry > now)
            && (forall id :: id in m0 && m0[id].uaid == session.uaid ==>
                  m0[id] in session.outbox || m0[id].expiry <= last)
            && session.store.messages == m0 - Ids(session.outbox)
  {
    hide StoreSpec.Valid, IsId, IsChannel, IsPending, Draining, OldestFirst, Distinct, Ids;
    ghost var m0 := session.store.messages;
    last := now;
    NamedById(session.store.State());
    FreshSession(m0, session.uaid, now);
    ghost var pending := session.NextBatch(now);
    ReadDrains(m0, m0, session.uaid, session.batch, [], true, now, now, pending);
    while session.unacked != {}
      invariant MidDrain(session, m0, now, last)
      decreases |session.store.messages|
    {
      last := Turn(session, m0, now, last);
    }
    DrainingFacts(m0, session.store.messages, session.uaid, session.outbox, {}, false, last);
    DrainedAll(m0, session.store.messages, session.uaid, session.outbox, last);
  }

  lemma NamedById(s: State)
    requires StoreSpec.Valid(s)
    ensures forall id :: id in s.messages ==> s.messages[id].id == id
  {
  }

  lemma DrainingFacts(
    m0: map<string, Message>, messages: map<string, Message>, uaid: string,
    outbox: seq<Message>, unacked: set<string>, more: bool, last: nat)
    requires Draining(m0, messages, uaid, outbox, unacked, more, last)
    ensures unacked <= Ids(outbox) && OldestFirst(outbox)
    ensures forall m :: m in outbox ==> m.id in m0 && m0[m.id] == m && m.uaid == uaid
    ensures forall id :: id in messages ==> id in m0 && messages[id] == m0[id]
  {
  }

  lemma DrainedAll(
    m0: map<string, Message>, messages: map<string, Message>, uaid: string, outbox: seq<Message>, last: nat)
    requires Draining(m0, messages, uaid, outbox, {}, false, last)
    requires forall id :: id in m0 ==> m0[id].id == id
    ensures messages == m0 - Ids(outbox)
    ensures forall id :: id in m0 && m0[id].uaid == uaid ==> m0[id] in outbox || m0[id].expiry <= last
  {
    assert Ids(outbox) - {} == Ids(outbox);
    forall id | id in m0 && m0[id].uaid == uaid && m0[id].expiry > last ensures m0[id] in outbox {
      assert Due(m0, uaid, last, m0[id]);
      var m :| m in outbox && m.id == id;
    }
  }
}
