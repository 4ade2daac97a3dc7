/**
 Concurrent calls on the table, one RPC at a time: inserts, acknowledgements, withdrawals,
 unsubscriptions, user agent deletions and reaping, by any number of processes on any number
 of nodes, any of which may stop between two RPCs for good. Rows of other kinds change freely
 meanwhile and garbage collection may drop message and index rows.
 */
module Removal {
  import opened Prelude
  import opened Types
  import opened Keys
  import opened Tables
  import opened Layout

  /** Why a message is removed. */
  datatype Why =
    | Acked(uaid: string, channelId: string, status: nat)
    | Withdrawn
    | Unsubscribed(uaid: string, channelId: string)
    | Reaped(now: nat)

  /** The receipt status a removal owes. */
  function StatusOf(why: Why): Option<nat> {
    match why
    case Acked(_, _, status) => Some(status)
    case Withdrawn => None
    case Unsubscribed(_, _) => Some(410)
    case Reaped(_) => Some(410)
  }

  /** The removal is one this message may suffer. */
  predicate Entitled(why: Why, m: Message) {
    match why
    case Acked(uaid, ch, status) => m.uaid == uaid && m.channelId == ch && (status == 204 || status == 410)
    case Withdrawn => true
    case Unsubscribed(uaid, ch) => m.uaid == uaid && m.channelId == ch
    case Reaped(now) => m.expiry <= now
  }

  /** The owner check of `delete_message`. */
  predicate Owned(why: Why, m: Message) {
    why.Acked? ==> m.uaid == why.uaid && m.channelId == why.channelId
  }

  /** What `delete_message` is called for. */
  predicate Direct(why: Why) {
    why.Withdrawn? || (why.Acked? && (why.status == 204 || why.status == 410))
  }

  /** One RPC of a call, with what the call has learnt so far. */
  datatype Op =
    | PutRow(m: Message)
    | PutIndex(m: Message)
    | PutExpiry(m: Message)
    | ReadIndex(id: string, why: Why)
    | ReadRow(id: string, target: Key, why: Why)
    | RemoveRow(k: Key, m: Message, why: Why)
    | DropIndex(m: Message, why: Why)
    | CheckQueue(m: Message, status: nat)
    | PutReceipt(m: Message, status: nat)
    | Scan(keys: seq<Key>, found: seq<(Key, Message)>, uaid: string, channelId: string)
    | Due(keys: seq<Key>, named: seq<(Key, Key)>, now: nat)
    | ReapRow(idx: Key, target: Key, now: nat)
    | DropExpiry(idx: Key)

  /** The table, the RPCs each process has still to make, and a record of what happened. */
  datatype World = World(
    view: View,
    procs: map<nat, seq<Op>>,
    all: map<string, Message>,
    written: set<string>,
    replaced: set<string>,
    removals: seq<(string, Why)>,
    receipts: seq<Receipt>)

  ghost predicate Initial(w: World) {
    w.procs == map[] && w.all == map[] && w.written == {} && w.replaced == {} && w.removals == [] && w.receipts == []
    && forall k :: k in w.view ==> !k.Msg? && !k.Mid? && !k.Rexp?
  }

  // -- Calls ----------------------------------------------------------------

  datatype Call =
    | Insert(m: Message)
    | Ack(id: string, uaid: string, channelId: string, status: nat)
    | Withdraw(id: string)
    | Unsubscribe(uaid: string, channelId: string, keys: seq<Key>)
    | DeleteAgent(uaid: string, scans: seq<(string, seq<Key>)>)
    | Reap(now: nat, keys: seq<Key>)

  /** A user agent's channels are unsubscribed one after the other. */
  function Scans(uaid: string, scans: seq<(string, seq<Key>)>): (p: seq<Op>)
    ensures forall i :: 0 <= i < |p| ==> p[i].Scan? && p[i].found == []
  {
    if |scans| == 0 then []
    else [Scan(scans[0].1, [], uaid, scans[0].0)] + Scans(uaid, scans[1..])
  }

  /** The RPCs a call starts with. The keys a scan will visit are not known in advance, so any may be given. */
  function Program(c: Call): seq<Op> {
    match c
    case Insert(m) => [PutRow(m), PutIndex(m)] + (if m.rsub.Some? then [PutExpiry(m)] else [])
    case Ack(id, uaid, ch, status) => [ReadIndex(id, Acked(uaid, ch, status))]
    case Withdraw(id) => [ReadIndex(id, Withdrawn)]
    case Unsubscribe(uaid, ch, keys) => [Scan(keys, [], uaid, ch)]
    case DeleteAgent(uaid, scans) => Scans(uaid, scans)
    case Reap(now, keys) => [Due(keys, [], now)]
  }

  /** Inserted messages are well formed and have fresh ids; acknowledgements owe a 204 or a 410. */
  predicate Admissible(w: World, c: Call) {
    match c
    case Insert(m) => WellFormed(m) && m.id !in w.all
    case Ack(_, _, _, status) => status == 204 || status == 410
    case _ => true
  }

  // -- One RPC --------------------------------------------------------------

  /** Removals of the scanned messages that belong to the channel. */
  function Removes(found: seq<(Key, Message)>, uaid: string, ch: string): (p: seq<Op>)
    ensures forall i :: 0 <= i < |p| ==>
      p[i].RemoveRow? && p[i].why == Unsubscribed(uaid, ch) && p[i].m.channelId == ch && (p[i].k, p[i].m) in found
  {
    if |found| == 0 then []
    else
      (if found[0].1.channelId == ch then [RemoveRow(found[0].0, found[0].1, Unsubscribed(uaid, ch))] else [])
      + Removes(found[1..], uaid, ch)
  }

  function Reaps(named: seq<(Key, Key)>, now: nat): (p: seq<Op>)
    ensures forall i :: 0 <= i < |p| ==> p[i].ReapRow? && p[i].now == now && (p[i].idx, p[i].target) in named
  {
    if |named| == 0 then [] else [ReapRow(named[0].0, named[0].1, now)] + Reaps(named[1..], now)
  }

  /** The message that row `k` holds, if it decodes. */
  function Decoded(view: View, k: Key): Option<Message> {
    if k in view then MessageFromRow(Encode(k), view[k]) else None
  }

  /** The message row that index row `k` names. */
  ghost predicate Names(view: View, k: Key, target: Key) {
    k in view && target.Msg? && Good(target) && Points(view[k], target)
  }

  ghost predicate NamesNothing(view: View, k: Key) {
    k !in view || !PointsSomewhere(view[k])
  }

  /** RPC `op` takes the world from `w` to `w'` and makes its process go on with `next`. */
  ghost predicate Does(w: World, op: Op, w': World, next: seq<Op>) {
    match op
    case PutRow(m) =>
      w' == w.(view := Mutated(w.view, MessageKey(m), true, Cells(m)), written := w.written + {m.id},
               replaced := w.replaced + Occupant(w.view, MessageKey(m)))
      && next == []
    case PutIndex(m) =>
      w' == w.(view := Mutated(w.view, Mid(m.id), false, map["row" := Encode(MessageKey(m))])) && next == []
    case PutExpiry(m) =>
      w' == w.(view := Mutated(w.view, Rexp(m.expiry, m.id), false, map["row" := Encode(MessageKey(m))])) && next == []
    case ReadIndex(id, why) =>
      w' == w
      && ((NamesNothing(w.view, Mid(id)) && next == [])
          || exists target :: Names(w.view, Mid(id), target) && next == [ReadRow(id, target, why)])
    case ReadRow(id, target, why) =>
      var m := Decoded(w.view, target);
      w' == w
      && next == if m.Some? && m.value.id == id && Owned(why, m.value) then [RemoveRow(target, m.value, why)] else []
    case RemoveRow(k, m, why) =>
      if Holds(w.view, k, "id", Some(m.id)) then
        w' == w.(view := Mutated(w.view, k, true, map[]), removals := w.removals + [(m.id, why)])
        && next == [DropIndex(m, why)]
      else w' == w && next == []
    case DropIndex(m, why) =>
      w' == w.(view := w.view - {Mid(m.id)})
      && next == if m.rsub.Some? && StatusOf(why).Some? then [CheckQueue(m, StatusOf(why).value)] else []
    case CheckQueue(m, status) =>
      w' == w && next == if m.rsub.Some? && Rsub(m.rsub.value) in w.view then [PutReceipt(m, status)] else []
    case PutReceipt(m, status) =>
      m.rsub.Some? && next == []
      && var r := Receipt(m.rsub.value, m.id, status);
         exists n ::
           w' == w.(view := Mutated(w.view, Rq(r.rsub, n), false, ReceiptCells(r)), receipts := w.receipts + [r])
    case Scan(keys, found, uaid, ch) =>
      w' == w
      && next == if |keys| == 0 then Removes(found, uaid, ch)
                 else
                   var k, m := keys[0], Decoded(w.view, keys[0]);
                   var more := if k.Msg? && k.uaid == uaid && m.Some? then found + [(k, m.value)] else found;
                   [Scan(keys[1..], more, uaid, ch)]
    case Due(keys, named, now) =>
      w' == w
      && if |keys| == 0 then next == Reaps(named, now)
         else if !keys[0].Rexp? || keys[0].expiry > now || NamesNothing(w.view, keys[0])
         then next == [Due(keys[1..], named, now)]
         else
           exists target ::
             Names(w.view, keys[0], target) && next == [Due(keys[1..], named + [(keys[0], target)], now)]
    case ReapRow(idx, target, now) =>
      var m := Decoded(w.view, target);
      w' == w
      && next == (if idx.Rexp? && m.Some? && m.value.id == idx.id
                  then [RemoveRow(target, m.value, Reaped(now))] else [])
                 + [DropExpiry(idx)]
    case DropExpiry(idx) => w' == w.(view := w.view - {idx}) && next == []
  }

  // -- Moves ----------------------------------------------------------------

  datatype Move =
    | Start(pid: nat, c: Call)
    | Run(pid: nat)
    | Crash(pid: nat)
    | Collect(k: Key)
    | Elsewhere(view: View)

  ghost predicate Moves(w: World, m: Move, w': World) {
    match m
    case Start(pid, c) =>
      pid !in w.procs && Admissible(w, c)
      && w' == w.(procs := w.procs[pid := Program(c)], all := if c.Insert? then w.all[c.m.id := c.m] else w.all)
    case Run(pid) =>
      pid in w.procs && |w.procs[pid]| > 0
      && exists w1, next ::
           Does(w, w.procs[pid][0], w1, next) && w' == w1.(procs := w.procs[pid := next + w.procs[pid][1..]])
    case Crash(pid) => w' == w.(procs := w.procs - {pid})
    case Collect(k) => (k.Msg? || k.Mid? || k.Rexp?) && w' == w.(view := w.view - {k})
    case Elsewhere(view) =>
      w' == w.(view := view)
      && forall k: Key :: k.Msg? || k.Mid? || k.Rexp? ==>
           (k in view <==> k in w.view) && (k in view ==> view[k] == w.view[k])
  }

  ghost predicate Next(w: World, w': World) {
    exists m :: Moves(w, m, w')
  }

  ghost predicate IsRun(run: seq<World>) {
    |run| > 0 && Initial(run[0]) && forall i :: 0 <= i < |run| - 1 ==> Next(run[i], run[i + 1])
  }

  // -- What holds throughout ------------------------------------------------

  predicate Known(w: World, m: Message) {
    m.id in w.all && w.all[m.id] == m
  }

  ghost predicate WasRemoved(w: World, id: string) {
    exists i :: 0 <= i < |w.removals| && w.removals[i].0 == id
  }

  ghost predicate WasReceipted(w: World, id: string) {
    exists i :: 0 <= i < |w.receipts| && w.receipts[i].msgId == id
  }

  /** A message row holds a known message that was neither removed nor replaced. */
  ghost predicate RowKnown(w: World, k: Key)
    requires k in w.view
  {
    "id" in w.view[k] && w.view[k]["id"] in w.written
    && var id := w.view[k]["id"];
       id in w.all && w.view[k] == Cells(w.all[id]) && MessageKey(w.all[id]) == k
       && !WasRemoved(w, id) && id !in w.replaced
  }

  ghost predicate RowsKnown(w: World) {
    (forall id :: id in w.all ==> w.all[id].id == id && WellFormed(w.all[id]))
    && w.written <= w.all.Keys && w.replaced <= w.written
    && (forall k :: k in w.view && k.Msg? ==> RowKnown(w, k))
    && (forall id :: Mid(id) in w.view ==> id in w.all && Points(w.view[Mid(id)], MessageKey(w.all[id])))
    && (forall e, id :: Rexp(e, id) in w.view ==>
          id in w.all && w.all[id].expiry == e && Points(w.view[Rexp(e, id)], MessageKey(w.all[id])))
  }

  /** Each message was removed at most once, for a reason that applies, and never also replaced. */
  ghost predicate RemovalsOnce(w: World) {
    (forall i, j :: 0 <= i < j < |w.removals| ==> w.removals[i].0 != w.removals[j].0)
    && forall i :: 0 <= i < |w.removals| ==>
         w.removals[i].0 in w.written && w.removals[i].0 in w.all && w.removals[i].0 !in w.replaced
         && Entitled(w.removals[i].1, w.all[w.removals[i].0])
  }

  /** A receipt for `m` with `status` is what its removal owes. */
  ghost predicate Justified(w: World, m: Message, status: nat) {
    exists why :: (m.id, why) in w.removals && StatusOf(why) == Some(status)
  }

  /** At most one receipt per message, and only the one its removal owes. */
  ghost predicate ReceiptsOnce(w: World) {
    (forall i, j :: 0 <= i < j < |w.receipts| ==> w.receipts[i].msgId != w.receipts[j].msgId)
    && forall i :: 0 <= i < |w.receipts| ==>
         var r := w.receipts[i];
         r.msgId in w.all && w.all[r.msgId].rsub == Some(r.rsub) && Justified(w, w.all[r.msgId], r.status)
  }

  /** What a pending RPC has learnt is true. */
  ghost predicate OpKnows(w: World, op: Op) {
    match op
    case PutRow(m) => Known(w, m)
    case PutIndex(m) => Known(w, m)
    case PutExpiry(m) => Known(w, m)
    case ReadIndex(_, why) => Direct(why)
    case ReadRow(id, target, why) => Direct(why) && id in w.all && target == MessageKey(w.all[id])
    case RemoveRow(k, m, why) => Known(w, m) && k == MessageKey(m) && Entitled(why, m)
    case DropIndex(m, why) => Known(w, m) && (m.id, why) in w.removals
    case CheckQueue(m, status) => Known(w, m) && Justified(w, m, status)
    case PutReceipt(m, status) => Known(w, m) && Justified(w, m, status)
    case Scan(_, found, uaid, _) =>
      forall i :: 0 <= i < |found| ==>
        Known(w, found[i].1) && found[i].0 == MessageKey(found[i].1) && found[i].1.uaid == uaid
    case Due(_, named, now) =>
      forall i :: 0 <= i < |named| ==> NamedRight(w, named[i].0, named[i].1, now)
    case ReapRow(idx, target, now) => NamedRight(w, idx, target, now)
    case DropExpiry(idx) => idx.Rexp?
  }

  /** Expiry row `idx` of a message due by `now`, and the row of that very message. */
  predicate NamedRight(w: World, idx: Key, target: Key, now: nat) {
    idx.Rexp? && idx.id in w.all && w.all[idx.id].expiry == idx.expiry <= now && target == MessageKey(w.all[idx.id])
  }

  /** The message whose receipt a process alone may still queue. */
  function Token(op: Op): Option<string> {
    match op
    case DropIndex(m, _) => Some(m.id)
    case CheckQueue(m, _) => Some(m.id)
    case PutReceipt(m, _) => Some(m.id)
    case _ => None
  }

  function Birth(op: Op): Option<string> {
    if op.PutRow? then Some(op.m.id) else None
  }

  ghost predicate OpsKnow(w: World) {
    forall pid, i :: pid in w.procs && 0 <= i < |w.procs[pid]| ==> OpKnows(w, w.procs[pid][i])
  }

  /** Only the next RPC of a process can write a message row or lead to a receipt. */
  ghost predicate OnlyHeads(w: World) {
    forall pid, i :: pid in w.procs && 1 <= i < |w.procs[pid]| ==>
      Token(w.procs[pid][i]).None? && Birth(w.procs[pid][i]).None?
  }

  ghost predicate Heads(w: World, pid: nat) {
    pid in w.procs && |w.procs[pid]| > 0
  }

  /** No two processes are about to write, or to queue a receipt for, the same message. */
  ghost predicate HeadsApart(w: World) {
    (forall p :: Heads(w, p) ==>
       (Token(w.procs[p][0]).Some? ==> !WasReceipted(w, Token(w.procs[p][0]).value))
       && (Birth(w.procs[p][0]).Some? ==> Birth(w.procs[p][0]).value !in w.written))
    && (forall p, q :: Heads(w, p) && Heads(w, q) && p != q ==>
          (Token(w.procs[p][0]).Some? ==> Token(w.procs[p][0]) != Token(w.procs[q][0]))
          && (Birth(w.procs[p][0]).Some? ==> Birth(w.procs[p][0]) != Birth(w.procs[q][0])))
  }

  ghost predicate Inv(w: World) {
    RowsKnown(w) && RemovalsOnce(w) && ReceiptsOnce(w) && OpsKnow(w) && OnlyHeads(w) && HeadsApart(w)
  }

  // -- Rows -----------------------------------------------------------------

  lemma RowsFewer(w: World, k: Key)
    requires RowsKnown(w)
    ensures RowsKnown(w.(view := w.view - {k}))
  {
    hide Points, MessageKey, Cells, WellFormed, WasRemoved;
    var w' := w.(view := w.view - {k});
    forall j | j in w'.view && j.Msg? ensures RowKnown(w', j) {
      assert RowKnown(w, j);
      RemovedAlike(w, w', w'.view[j]["id"]);
    }
  }

  lemma RemovedAlike(w: World, w': World, id: string)
    requires w'.removals == w.removals
    ensures WasRemoved(w', id) <==> WasRemoved(w, id)
  {
  }

  lemma RowsElsewhere(w: World, view: View)
    requires RowsKnown(w)
    requires forall k: Key :: k.Msg? || k.Mid? || k.Rexp? ==>
      (k in view <==> k in w.view) && (k in view ==> view[k] == w.view[k])
    ensures RowsKnown(w.(view := view))
  {
    hide Points, MessageKey, Cells, WellFormed, WasRemoved;
    var w' := w.(view := view);
    forall j | j in w'.view && j.Msg? ensures RowKnown(w', j) {
      assert RowKnown(w, j);
      RemovedAlike(w, w', w'.view[j]["id"]);
    }
  }

  /** The row a message replaces held another message, unless it was free. */
  lemma OccupantKnown(w: World, k: Key)
    requires RowsKnown(w) && k.Msg?
    ensures Occupant(w.view, k) <= w.written - w.replaced
    ensures forall id :: id in Occupant(w.view, k) ==> !WasRemoved(w, id) && id in w.all && MessageKey(w.all[id]) == k
  {
    hide Points, MessageKey, Cells, WellFormed, WasRemoved;
    if k in w.view {
      assert RowKnown(w, k);
    }
  }

  lemma RowsPut(w: World, m: Message, w': World)
    requires RowsKnown(w) && Known(w, m) && m.id !in w.written && !WasRemoved(w, m.id)
    requires Does(w, PutRow(m), w', [])
    ensures RowsKnown(w')
  {
    hide Points, Cells, WellFormed, WasRemoved, MessageKey, Occupant, Mutated;
    var k := MessageKey(m);
    MessageKeyKind(m);
    CellsId(m);
    ReplacedRow(w.view, k, Cells(m));
    OccupantKnown(w, k);
    forall j | j in w'.view && j.Msg? ensures RowKnown(w', j) {
      if j != k {
        assert RowKnown(w, j);
        RemovedAlike(w, w', w'.view[j]["id"]);
      } else {
        RemovedAlike(w, w', m.id);
      }
    }
  }

  /** An index row is written over itself or over nothing. */
  lemma IndexWritten(view: View, k: Key, target: Key)
    requires k in view ==> Points(view[k], target)
    ensures var row := map["row" := Encode(target)];
            Mutated(view, k, false, row) == view[k := row] && Points(row, target)
  {
    hide Encode;
    var none, row: Row := map[], map["row" := Encode(target)];
    assert row["row"] == Encode(target);
    assert none + row == row && row + row == row;
  }

  lemma RowsIndexed(w: World, k: Key, m: Message, w': World)
    requires RowsKnown(w) && Known(w, m) && (k == Mid(m.id) || k == Rexp(m.expiry, m.id))
    requires w' == w.(view := Mutated(w.view, k, false, map["row" := Encode(MessageKey(m))]))
    ensures RowsKnown(w')
  {
    hide Points, MessageKey, Cells, WellFormed, WasRemoved, Encode, Mutated;
    IndexWritten(w.view, k, MessageKey(m));
    forall j | j in w'.view && j.Msg? ensures RowKnown(w', j) {
      assert RowKnown(w, j);
      RemovedAlike(w, w', w'.view[j]["id"]);
    }
  }

  /** The row a conditional delete hits is that of the message it was meant for. */
  lemma HeldRow(w: World, k: Key, m: Message)
    requires RowsKnown(w) && Known(w, m) && k == MessageKey(m) && Holds(w.view, k, "id", Some(m.id))
    ensures m.id in w.written && !WasRemoved(w, m.id) && m.id !in w.replaced
  {
    hide Points, MessageKey, Cells, WellFormed, WasRemoved;
    MessageKeyKind(m);
    assert RowKnown(w, k);
  }

  lemma RowsRemoved(w: World, k: Key, m: Message, why: Why, w': World)
    requires RowsKnown(w) && Known(w, m) && k == MessageKey(m) && Holds(w.view, k, "id", Some(m.id))
    requires w' == w.(view := w.view - {k}, removals := w.removals + [(m.id, why)])
    ensures RowsKnown(w')
  {
    hide Points, MessageKey, Cells, WellFormed;
    MessageKeyKind(m);
    forall j | j in w'.view && j.Msg? ensures RowKnown(w', j) {
      assert RowKnown(w, j);
      assert w.all[w.view[j]["id"]].id == w.view[j]["id"];
    }
  }

  /** A row that decodes to a message with the id looked for holds it: stale index rows lead nowhere else. */
  lemma ResolvesRight(w: World, target: Key, m: Message)
    requires RowsKnown(w) && target.Msg? && Decoded(w.view, target) == Some(m)
    ensures Known(w, m) && target == MessageKey(m)
  {
    hide Points, MessageKey, Cells, WasRemoved, Encode, WellFormed, MessageFromRow;
    assert RowKnown(w, target);
    var n := w.all[w.view[target]["id"]];
    MessageRowRoundTrip(n);
  }

  /** An id row names the row of its own message and no other. */
  lemma IndexNamesOwn(w: World, id: string, target: Key)
    requires RowsKnown(w) && Names(w.view, Mid(id), target)
    ensures id in w.all && target == MessageKey(w.all[id])
  {
    hide MessageKey, Cells, WasRemoved, Encode, WellFormed, Good;
    MessageKeyGood(w.all[id]);
    assert w.view[Mid(id)]["row"] == Encode(target);
    assert w.view[Mid(id)]["row"] == Encode(MessageKey(w.all[id]));
    EncodeInjective(target, MessageKey(w.all[id]));
  }

  lemma ExpiryNamesOwn(w: World, idx: Key, target: Key)
    requires RowsKnown(w) && idx.Rexp? && Names(w.view, idx, target)
    ensures idx.id in w.all && w.all[idx.id].expiry == idx.expiry && target == MessageKey(w.all[idx.id])
  {
    hide MessageKey, Cells, WasRemoved, Encode, WellFormed, Good;
    assert idx == Rexp(idx.expiry, idx.id);
    MessageKeyGood(w.all[idx.id]);
    assert w.view[idx]["row"] == Encode(target);
    assert w.view[idx]["row"] == Encode(MessageKey(w.all[idx.id]));
    EncodeInjective(target, MessageKey(w.all[idx.id]));
  }

  // -- One RPC keeps it -----------------------------------------------------

  /** What an RPC may change of the record. */
  ghost predicate Grows(w: World, op: Op, w': World) {
    w'.procs == w.procs && w'.all == w.all
    && w'.written == (if op.PutRow? then w.written + {op.m.id} else w.written)
    && (w'.removals == w.removals
        || (op.RemoveRow? && w'.removals == w.removals + [(op.m.id, op.why)]
            && !WasRemoved(w, op.m.id) && op.m.id in w.written && op.m.id !in w.replaced))
    && (w'.receipts == w.receipts
        || (op.PutReceipt? && op.m.rsub.Some?
            && w'.receipts == w.receipts + [Receipt(op.m.rsub.value, op.m.id, op.status)]))
    && (w'.replaced == w.replaced
        || (op.PutRow? && w'.replaced == w.replaced + Occupant(w.view, MessageKey(op.m))))
  }

  /** The next RPC of its process: what makes its write or its receipt the first. */
  ghost predicate Ready(w: World, op: Op) {
    OpKnows(w, op)
    && (Token(op).Some? ==> !WasReceipted(w, Token(op).value))
    && (Birth(op).Some? ==> Birth(op).value !in w.written)
  }

  lemma DoesGrows(w: World, op: Op, w': World, next: seq<Op>)
    requires RowsKnown(w) && RemovalsOnce(w) && Ready(w, op) && Does(w, op, w', next)
    ensures Grows(w, op, w') && RowsKnown(w')
  {
    hide RowsKnown, RemovalsOnce, Mutated, Cells, MessageKey, Points, Removes, Reaps, Decoded, Names, NamesNothing;
    hide Encode;
    hide WasRemoved, WasReceipted, Occupant, Justified, Known, Holds;
    match op {
      case PutRow(m) =>
        UnwrittenUnremoved(w, m.id);
        RowsPut(w, m, w');
      case PutIndex(m) => RowsIndexed(w, Mid(m.id), m, w');
      case PutExpiry(m) => RowsIndexed(w, Rexp(m.expiry, m.id), m, w');
      case RemoveRow(k, m, why) =>
        if Holds(w.view, k, "id", Some(m.id)) {
          HeldRow(w, k, m);
          ClearedRow(w.view, k);
          RowsRemoved(w, k, m, why, w');
        }
      case DropIndex(m, _) => RowsFewer(w, Mid(m.id));
      case DropExpiry(idx) => RowsFewer(w, idx);
      case PutReceipt(m, status) =>
        RowsElsewhere(w, w'.view) by {
          ReceiptElsewhere(w, m, status, w');
        }
        RowsSame(w.(view := w'.view), w');
      case _ =>
    }
  }

  lemma UnwrittenUnremoved(w: World, id: string)
    requires RemovalsOnce(w) && id !in w.written
    ensures !WasRemoved(w, id)
  {
  }

  lemma RowsSame(w: World, w': World)
    requires RowsKnown(w) && w' == w.(receipts := w'.receipts)
    ensures RowsKnown(w')
  {
    hide Points, MessageKey, Cells, WellFormed, WasRemoved;
    forall j | j in w'.view && j.Msg? ensures RowKnown(w', j) {
      assert RowKnown(w, j);
      RemovedAlike(w, w', w'.view[j]["id"]);
    }
  }

  lemma ReceiptElsewhere(w: World, m: Message, status: nat, w': World)
    requires Does(w, PutReceipt(m, status), w', [])
    ensures forall k: Key :: k.Msg? || k.Mid? || k.Rexp? ==>
      (k in w'.view <==> k in w.view) && (k in w'.view ==> w'.view[k] == w.view[k])
  {
    hide ReceiptCells;
  }

  lemma DoesRemovals(w: World, op: Op, w': World, next: seq<Op>)
    requires RowsKnown(w) && RemovalsOnce(w) && Ready(w, op) && Grows(w, op, w')
    ensures RemovalsOnce(w')
  {
    hide RowsKnown, Mutated, Cells, MessageKey, Points, Occupant, Justified, WellFormed, Encode;
    if op.PutRow? {
      MessageKeyKind(op.m);
      OccupantKnown(w, MessageKey(op.m));
    }
  }

  lemma StillJustified(w: World, op: Op, w': World, m: Message, status: nat)
    requires Grows(w, op, w') && Justified(w, m, status)
    ensures Justified(w', m, status)
  {
    hide MessageKey, Occupant, WasRemoved;
    var why :| (m.id, why) in w.removals && StatusOf(why) == Some(status);
    assert (m.id, why) in w'.removals;
  }

  lemma DoesReceipts(w: World, op: Op, w': World)
    requires ReceiptsOnce(w) && Ready(w, op) && Grows(w, op, w')
    ensures ReceiptsOnce(w')
  {
    hide MessageKey, Occupant, Justified, WasRemoved;
    forall i | 0 <= i < |w'.receipts|
      ensures var r := w'.receipts[i];
              r.msgId in w'.all && w'.all[r.msgId].rsub == Some(r.rsub) && Justified(w', w'.all[r.msgId], r.status)
    {
      var r := w'.receipts[i];
      if i < |w.receipts| {
        StillJustified(w, op, w', w.all[r.msgId], r.status);
      } else {
        StillJustified(w, op, w', op.m, op.status);
      }
    }
  }

  /** What an RPC learnt stays true. */
  lemma KnowsStill(w: World, op: Op, w': World, other: Op)
    requires Grows(w, op, w') && OpKnows(w, other)
    ensures OpKnows(w', other)
  {
    hide MessageKey, Occupant, Justified, WasRemoved, WasReceipted;
    match other {
      case CheckQueue(m, status) => StillJustified(w, op, w', m, status);
      case PutReceipt(m, status) => StillJustified(w, op, w', m, status);
      case _ =>
    }
  }

  /** What a lookup learns is true. */
  lemma LookupKnows(w: World, op: Op, w': World, next: seq<Op>)
    requires RowsKnown(w) && OpKnows(w, op) && Does(w, op, w', next) && (op.ReadIndex? || op.ReadRow? || op.ReapRow?)
    ensures forall i :: 0 <= i < |next| ==> OpKnows(w, next[i])
  {
    hide RowsKnown, Cells, MessageKey, Points, Decoded, Encode, WasRemoved, WasReceipted, Holds;
    match op {
      case ReadIndex(id, why) =>
        if |next| > 0 {
          var target :| Names(w.view, Mid(id), target) && next == [ReadRow(id, target, why)];
          IndexNamesOwn(w, id, target);
        }
      case ReadRow(id, target, why) =>
        if |next| > 0 {
          MessageKeyKind(w.all[id]);
          ResolvesRight(w, target, next[0].m);
        }
      case ReapRow(idx, target, now) =>
        MessageKeyKind(w.all[idx.id]);
        if |next| > 1 {
          ResolvesRight(w, target, next[0].m);
        }
    }
  }

  /** What a scan learns is true. */
  lemma SweepKnows(w: World, op: Op, w': World, next: seq<Op>)
    requires RowsKnown(w) && OpKnows(w, op) && Does(w, op, w', next) && (op.Scan? || op.Due?)
    ensures forall i :: 0 <= i < |next| ==> OpKnows(w, next[i])
  {
    hide RowsKnown, OpKnows, Does;
    match op {
      case Scan(keys, found, uaid, ch) => ScanGoesOn(w, keys, found, uaid, ch, w', next);
      case Due(keys, named, now) => DueGoesOn(w, keys, named, now, w', next);
    }
  }

  lemma ScanGoesOn(
    w: World, keys: seq<Key>, found: seq<(Key, Message)>, uaid: string, ch: string, w': World, next: seq<Op>)
    requires RowsKnown(w) && OpKnows(w, Scan(keys, found, uaid, ch)) && Does(w, Scan(keys, found, uaid, ch), w', next)
    ensures forall i :: 0 <= i < |next| ==> OpKnows(w, next[i])
  {
    hide RowsKnown, Known, MessageKey, Decoded;
    if |keys| > 0 {
      ScanKnows(w, keys[0], uaid);
    }
  }

  lemma DueGoesOn(w: World, keys: seq<Key>, named: seq<(Key, Key)>, now: nat, w': World, next: seq<Op>)
    requires RowsKnown(w) && OpKnows(w, Due(keys, named, now)) && Does(w, Due(keys, named, now), w', next)
    ensures forall i :: 0 <= i < |next| ==> OpKnows(w, next[i])
  {
    hide RowsKnown, MessageKey, Points;
    if |keys| > 0 && next != [Due(keys[1..], named, now)] {
      var target :| Names(w.view, keys[0], target) && next == [Due(keys[1..], named + [(keys[0], target)], now)];
      ExpiryNamesOwn(w, keys[0], target);
    }
  }

  /** What the process learns from the RPC is true. */
  lemma DoesKnows(w: World, op: Op, w': World, next: seq<Op>)
    requires RowsKnown(w) && Ready(w, op) && Does(w, op, w', next) && Grows(w, op, w')
    ensures forall i :: 0 <= i < |next| ==> OpKnows(w', next[i])
  {
    hide RowsKnown, Mutated, Cells, MessageKey, Points, Decoded, Encode, WasRemoved, WasReceipted, Occupant, Holds;
    match op {
      case ReadIndex(_, _) => LookupKnows(w, op, w', next);
      case ReadRow(_, _, _) => LookupKnows(w, op, w', next);
      case ReapRow(_, _, _) => LookupKnows(w, op, w', next);
      case RemoveRow(_, m, why) =>
        if |next| > 0 {
          assert w'.removals[|w.removals|] == (m.id, why);
        }
      case Scan(_, _, _, _) => SweepKnows(w, op, w', next);
      case Due(_, _, _) => SweepKnows(w, op, w', next);
      case _ =>
    }
  }

  lemma ScanKnows(w: World, k: Key, uaid: string)
    requires RowsKnown(w)
    ensures var m := Decoded(w.view, k);
            k.Msg? && k.uaid == uaid && m.Some? ==>
              Known(w, m.value) && k == MessageKey(m.value) && m.value.uaid == uaid
  {
    hide RowsKnown, MessageKey, Decoded;
    var m := Decoded(w.view, k);
    if k.Msg? && k.uaid == uaid && m.Some? {
      ResolvesRight(w, k, m.value);
      MessageKeyKind(m.value);
    }
  }

  /** Of what a process goes on with, only the next RPC can lead to a receipt, and only for the message at hand. */
  lemma DoesTokens(w: World, op: Op, w': World, next: seq<Op>)
    requires Does(w, op, w', next)
    ensures forall i :: 1 <= i < |next| ==> Token(next[i]).None?
    ensures forall i :: 0 <= i < |next| ==> Birth(next[i]).None?
    ensures |next| > 0 && Token(next[0]).Some? ==>
      (!op.PutReceipt? && Token(op) == Token(next[0]))
      || (op.RemoveRow? && Token(next[0]) == Some(op.m.id) && Holds(w.view, op.k, "id", Some(op.m.id)))
  {
    hide Mutated, Cells, MessageKey, Points, Decoded, Encode, Occupant, Names, NamesNothing, Holds;
  }

  /** What comes after the next RPC of a process is what it went on with, then what was left. */
  lemma Continued(next: seq<Op>, procs: seq<Op>, i: nat)
    requires |procs| > 0 && i < |next + procs[1..]|
    ensures (next + procs[1..])[i] == if i < |next| then next[i] else procs[i - |next| + 1]
  {
  }

  lemma RunKeepsTails(w: World, pid: nat, w1: World, next: seq<Op>, w': World)
    requires OnlyHeads(w) && Heads(w, pid) && Does(w, w.procs[pid][0], w1, next)
    requires w' == w1.(procs := w.procs[pid := next + w.procs[pid][1..]])
    ensures OnlyHeads(w')
  {
    DoesTokens(w, w.procs[pid][0], w1, next);
    hide Does, Token, Birth;
    forall q, i | q in w'.procs && 1 <= i < |w'.procs[q]|
      ensures Token(w'.procs[q][i]).None? && Birth(w'.procs[q][i]).None?
    {
      if q == pid {
        Continued(next, w.procs[pid], i);
      }
    }
  }

  /** The new next RPC of the process: no write, and no claim on a receipt but its own or a first one. */
  lemma RunHead(w: World, pid: nat, w1: World, next: seq<Op>, w': World)
    requires Inv(w) && Heads(w, pid) && Does(w, w.procs[pid][0], w1, next) && Grows(w, w.procs[pid][0], w1)
    requires w' == w1.(procs := w.procs[pid := next + w.procs[pid][1..]]) && |w'.procs[pid]| > 0
    ensures Birth(w'.procs[pid][0]).None?
    ensures Token(w'.procs[pid][0]).Some? ==>
      !WasReceipted(w1, Token(w'.procs[pid][0]).value)
      && forall q :: Heads(w, q) && q != pid ==> Token(w.procs[q][0]) != Token(w'.procs[pid][0])
  {
    hide RowsKnown, Mutated, Cells, MessageKey, Points, Decoded, Encode, Occupant, Does, Justified, Holds;
    var op := w.procs[pid][0];
    DoesTokens(w, op, w1, next);
    Continued(next, w.procs[pid], 0);
    if |next| > 0 && op.RemoveRow? && Token(next[0]).Some? {
      HeldRow(w, op.k, op.m) by { assert OpKnows(w, op); }
      NoTokenBeforeRemoval(w, op.m.id);
    }
  }

  lemma RunKeepsHeads(w: World, pid: nat, w1: World, next: seq<Op>, w': World)
    requires Inv(w) && Heads(w, pid) && Does(w, w.procs[pid][0], w1, next) && Grows(w, w.procs[pid][0], w1)
    requires w' == w1.(procs := w.procs[pid := next + w.procs[pid][1..]])
    ensures OnlyHeads(w') && HeadsApart(w')
  {
    hide RowsKnown, RemovalsOnce, ReceiptsOnce, OpsKnow, MessageKey, Occupant, Does;
    RunKeepsTails(w, pid, w1, next, w');
    if |w'.procs[pid]| > 0 {
      RunHead(w, pid, w1, next, w');
    }
    hide OnlyHeads;
  }

  /** Before a message is removed nobody holds a claim on its receipt, and there is none. */
  lemma NoTokenBeforeRemoval(w: World, id: string)
    requires OpsKnow(w) && ReceiptsOnce(w) && RowsKnown(w) && !WasRemoved(w, id)
    ensures !WasReceipted(w, id)
    ensures forall p :: Heads(w, p) ==> Token(w.procs[p][0]) != Some(id)
  {
    hide Mutated, Cells, MessageKey, Points, Encode, WellFormed, RowKnown;
    forall i | 0 <= i < |w.receipts| ensures w.receipts[i].msgId != id {
      assert Justified(w, w.all[w.receipts[i].msgId], w.receipts[i].status);
    }
    forall p | Heads(w, p) ensures Token(w.procs[p][0]) != Some(id) {
      assert OpKnows(w, w.procs[p][0]);
    }
  }

  lemma RunKeepsOps(w: World, pid: nat, w1: World, next: seq<Op>, w': World)
    requires OpsKnow(w) && Heads(w, pid) && Grows(w, w.procs[pid][0], w1)
    requires forall i :: 0 <= i < |next| ==> OpKnows(w1, next[i])
    requires w' == w1.(procs := w.procs[pid := next + w.procs[pid][1..]])
    ensures OpsKnow(w')
  {
    hide OpKnows, Grows;
    var op := w.procs[pid][0];
    forall q, i | q in w'.procs && 0 <= i < |w'.procs[q]| ensures OpKnows(w', w'.procs[q][i]) {
      if q == pid && i < |next| {
        KnowsApart(w1, w', next[i]);
      } else {
        var j := if q == pid then i - |next| + 1 else i;
        assert w'.procs[q][i] == w.procs[q][j];
        KnowsStill(w, op, w1, w.procs[q][j]);
        KnowsApart(w1, w', w.procs[q][j]);
      }
    }
  }

  /** Knowledge is about the record, not about the processes or the rows. */
  lemma KnowsApart(w: World, w': World, op: Op)
    requires OpKnows(w, op) && w' == w.(procs := w'.procs, view := w'.view)
    ensures OpKnows(w', op)
  {
    hide MessageKey;
  }

  lemma RunKeepsInv(w: World, pid: nat, w': World)
    requires Inv(w) && Moves(w, Run(pid), w')
    ensures Inv(w')
  {
    hide RowsKnown, RemovalsOnce, ReceiptsOnce, OpsKnow, OnlyHeads, HeadsApart, Does, Grows;
    var w1, next :| Does(w, w.procs[pid][0], w1, next) && w' == w1.(procs := w.procs[pid := next + w.procs[pid][1..]]);
    var op := w.procs[pid][0];
    assert Ready(w, op) by {
      HeadReady(w, pid);
    }
    DoesGrows(w, op, w1, next);
    DoesRemovals(w, op, w1, next);
    DoesReceipts(w, op, w1);
    DoesKnows(w, op, w1, next);
    RunKeepsOps(w, pid, w1, next, w');
    RunKeepsHeads(w, pid, w1, next, w');
    RecordApart(w1, w');
  }

  lemma HeadReady(w: World, pid: nat)
    requires OpsKnow(w) && HeadsApart(w) && Heads(w, pid)
    ensures Ready(w, w.procs[pid][0])
  {
    hide OpKnows;
  }

  /** The rows and the record do not depend on the processes. */
  lemma RecordApart(w: World, w': World)
    requires RowsKnown(w) && RemovalsOnce(w) && ReceiptsOnce(w) && w' == w.(procs := w'.procs)
    ensures RowsKnown(w') && RemovalsOnce(w') && ReceiptsOnce(w')
  {
    hide Points, MessageKey, Cells, WellFormed, WasRemoved, Justified;
    forall j | j in w'.view && j.Msg? ensures RowKnown(w', j) {
      assert RowKnown(w, j);
      RemovedAlike(w, w', w'.view[j]["id"]);
    }
    forall m, status | Justified(w, m, status) ensures Justified(w', m, status) {
      JustifiedAlike(w, w', m, status);
    }
  }

  lemma JustifiedAlike(w: World, w': World, m: Message, status: nat)
    requires w'.removals == w.removals
    ensures Justified(w, m, status) <==> Justified(w', m, status)
  {
  }

  // -- The other moves ------------------------------------------------------

  lemma ProgramKnows(w: World, c: Call, i: nat)
    requires i < |Program(c)| && (c.Insert? ==> Known(w, c.m)) && (c.Ack? ==> c.status == 204 || c.status == 410)
    ensures OpKnows(w, Program(c)[i]) && Token(Program(c)[i]).None?
    ensures Birth(Program(c)[i]).Some? ==> i == 0 && c.Insert? && Birth(Program(c)[i]) == Some(c.m.id)
  {
    hide WellFormed, MessageKey;
  }

  /** A message that is about to be inserted changes nothing yet. */
  lemma BornRecord(w: World, all: map<string, Message>, w': World)
    requires RowsKnown(w) && RemovalsOnce(w) && ReceiptsOnce(w)
    requires w' == w.(all := all, procs := w'.procs)
    requires forall id :: id in w.all ==> id in all && all[id] == w.all[id]
    requires forall id :: id in all ==> all[id].id == id && WellFormed(all[id])
    ensures RowsKnown(w') && RemovalsOnce(w') && ReceiptsOnce(w')
  {
    hide Points, MessageKey, Cells, WellFormed, WasRemoved, Justified;
    forall j | j in w'.view && j.Msg? ensures RowKnown(w', j) {
      assert RowKnown(w, j);
      RemovedAlike(w, w', w'.view[j]["id"]);
    }
    forall m, status | Justified(w, m, status) ensures Justified(w', m, status) {
      JustifiedAlike(w, w', m, status);
    }
  }

  lemma KnowsBorn(w: World, w': World, op: Op)
    requires OpKnows(w, op) && w' == w.(all := w'.all, procs := w'.procs)
    requires forall id :: id in w.all ==> id in w'.all && w'.all[id] == w.all[id]
    ensures OpKnows(w', op)
  {
    hide MessageKey, Justified;
    match op {
      case CheckQueue(m, status) => JustifiedAlike(w, w', m, status);
      case PutReceipt(m, status) => JustifiedAlike(w, w', m, status);
      case _ =>
    }
  }

  lemma StartKeepsInv(w: World, pid: nat, c: Call, w': World)
    requires Inv(w) && Moves(w, Start(pid, c), w') && (c.Insert? ==> c.m.id !in w.all)
    ensures Inv(w')
  {
    hide RowsKnown, RemovalsOnce, ReceiptsOnce, OpKnows, Program, WellFormed, WasReceipted;
    AllWellFormed(w);
    BornRecord(w, w'.all, w');
    forall q, i | q in w'.procs && 0 <= i < |w'.procs[q]| ensures OpKnows(w', w'.procs[q][i]) {
      if q == pid {
        ProgramKnows(w', c, i);
      } else {
        KnowsBorn(w, w', w.procs[q][i]);
      }
    }
    forall q, i | q in w'.procs && 1 <= i < |w'.procs[q]|
      ensures Token(w'.procs[q][i]).None? && Birth(w'.procs[q][i]).None?
    {
      if q == pid {
        ProgramKnows(w', c, i);
      }
    }
    StartKeepsApart(w, pid, c, w');
  }

  lemma AllWellFormed(w: World)
    requires RowsKnown(w)
    ensures forall id :: id in w.all ==> w.all[id].id == id && WellFormed(w.all[id])
    ensures w.written <= w.all.Keys
  {
  }

  lemma StartKeepsApart(w: World, pid: nat, c: Call, w': World)
    requires HeadsApart(w) && OpsKnow(w) && w.written <= w.all.Keys && Moves(w, Start(pid, c), w')
    requires c.Insert? ==> c.m.id !in w.all
    ensures HeadsApart(w')
  {
    hide OpKnows, Program, WellFormed, WasReceipted;
    forall q | Heads(w, q) && Birth(w.procs[q][0]).Some? ensures Birth(w.procs[q][0]).value in w.all {
      BirthKnown(w, w.procs[q][0]);
    }
    if |Program(c)| > 0 {
      StartBirth(w', c);
    }
    forall id ensures WasReceipted(w', id) == WasReceipted(w, id) {
      ReceiptedAlike(w, w', id);
    }
  }

  lemma BirthKnown(w: World, op: Op)
    requires OpKnows(w, op) && Birth(op).Some?
    ensures Birth(op).value in w.all
  {
  }

  lemma StartBirth(w: World, c: Call)
    requires |Program(c)| > 0
    ensures Token(Program(c)[0]).None?
    ensures Birth(Program(c)[0]).Some? ==> c.Insert? && Birth(Program(c)[0]) == Some(c.m.id)
  {
  }

  lemma ReceiptedAlike(w: World, w': World, id: string)
    requires w'.receipts == w.receipts
    ensures WasReceipted(w, id) <==> WasReceipted(w', id)
  {
  }

  /** Moves that only change rows. */
  lemma ViewKeepsInv(w: World, w': World)
    requires Inv(w) && w' == w.(view := w'.view) && RowsKnown(w')
    ensures Inv(w')
  {
    hide RowsKnown, OpKnows, WasReceipted, Justified;
    forall m, status | Justified(w, m, status) ensures Justified(w', m, status) {
      JustifiedAlike(w, w', m, status);
    }
    forall q, i | q in w'.procs && 0 <= i < |w'.procs[q]| ensures OpKnows(w', w'.procs[q][i]) {
      KnowsApart(w, w', w.procs[q][i]);
    }
    forall id ensures WasReceipted(w', id) == WasReceipted(w, id) {
      ReceiptedAlike(w, w', id);
    }
  }

  lemma CrashKeepsInv(w: World, pid: nat, w': World)
    requires Inv(w) && w' == w.(procs := w.procs - {pid})
    ensures Inv(w')
  {
    hide RowsKnown, OpKnows, WasReceipted, RemovalsOnce, ReceiptsOnce;
    RecordApart(w, w');
    forall q, i | q in w'.procs && 0 <= i < |w'.procs[q]| ensures OpKnows(w', w'.procs[q][i]) {
      KnowsApart(w, w', w.procs[q][i]);
    }
    forall id ensures WasReceipted(w', id) == WasReceipted(w, id) {
      ReceiptedAlike(w, w', id);
    }
  }

  lemma NextKeepsInv(w: World, w': World)
    requires Inv(w) && Next(w, w')
    ensures Inv(w')
  {
    hide Inv, RowsKnown, RemovalsOnce, ReceiptsOnce, OpsKnow, OnlyHeads, HeadsApart, Does, Program;
    var m :| Moves(w, m, w');
    match m {
      case Start(pid, c) => StartKeepsInv(w, pid, c, w');
      case Run(pid) => RunKeepsInv(w, pid, w');
      case Crash(pid) => CrashKeepsInv(w, pid, w');
      case Collect(k) =>
        InvRows(w);
        RowsFewer(w, k);
        ViewKeepsInv(w, w');
      case Elsewhere(view) =>
        InvRows(w);
        RowsElsewhere(w, view);
        ViewKeepsInv(w, w');
    }
  }

  lemma InvRows(w: World)
    requires Inv(w)
    ensures RowsKnown(w)
  {
  }

  lemma InitialInv(w: World)
    requires Initial(w)
    ensures Inv(w)
  {
    hide Points, MessageKey, Cells, WellFormed;
  }

  /** The invariant holds after every run. */
  lemma {:induction false} RunsKeepInv(run: seq<World>)
    requires IsRun(run)
    ensures Inv(run[|run| - 1])
    decreases |run|
  {
    hide Inv, Initial, Next;
    if |run| == 1 {
      InitialInv(run[0]);
    } else {
      var before := run[..|run| - 1];
      forall i | 0 <= i < |before| - 1 ensures Next(before[i], before[i + 1]) {
        assert before[i] == run[i] && before[i + 1] == run[i + 1];
      }
      RunsKeepInv(before);
      NextKeepsInv(run[|run| - 2], run[|run| - 1]);
    }
  }

  // -- The theorems ---------------------------------------------------------

  /** The conditional delete succeeds at most once per message, and never for one that was replaced. */
  lemma RemovedOnce(run: seq<World>, i: nat, j: nat)
    requires IsRun(run)
    requires var log := run[|run| - 1].removals; i < |log| && j < |log|
    ensures var w := run[|run| - 1];
            (i != j ==> w.removals[i].0 != w.removals[j].0) && w.removals[i].0 !in w.replaced
  {
    RunsKeepInv(run);
    hide IsRun, RowsKnown, OpsKnow, OnlyHeads, HeadsApart;
  }

  /**
   At most one receipt is ever queued for a message: the one its removal owes, to the
   subscription it named. A message withdrawn or replaced gets none.
   */
  lemma ReceiptOnce(run: seq<World>, i: nat, j: nat)
    requires IsRun(run)
    requires var log := run[|run| - 1].receipts; i < |log| && j < |log|
    ensures var w := run[|run| - 1];
            var r := w.receipts[i];
            (i != j ==> r.msgId != w.receipts[j].msgId)
            && r.msgId in w.all && w.all[r.msgId].rsub == Some(r.rsub) && r.msgId !in w.replaced
            && (r.status == 204 || r.status == 410)
            && (r.msgId, Withdrawn) !in w.removals
            && (forall why :: (r.msgId, why) in w.removals ==>
                  r.status == (if why.Acked? then why.status else 410) && Entitled(why, w.all[r.msgId]))
  {
    RunsKeepInv(run);
    hide IsRun, OpsKnow, OnlyHeads, HeadsApart;
    var w := run[|run| - 1];
    var r := w.receipts[i];
    RemovalReason(w, w.all[r.msgId], r.status);
  }

  /** The removal that justifies a receipt is the only one. */
  lemma RemovalReason(w: World, m: Message, status: nat)
    requires RemovalsOnce(w) && Justified(w, m, status) && Known(w, m)
    ensures m.id !in w.replaced && (status == 204 || status == 410)
    ensures forall why :: (m.id, why) in w.removals ==> StatusOf(why) == Some(status) && Entitled(why, m)
  {
    var first :| (m.id, first) in w.removals && StatusOf(first) == Some(status);
    var i :| 0 <= i < |w.removals| && w.removals[i] == (m.id, first);
    forall why | (m.id, why) in w.removals ensures why == first {
      var j :| 0 <= j < |w.removals| && w.removals[j] == (m.id, why);
    }
  }

  /** An id row, however stale, leads to its own message or to none. */
  lemma LocatesOwn(run: seq<World>, id: string, target: Key, m: Message)
    requires IsRun(run)
    requires var w := run[|run| - 1]; Names(w.view, Mid(id), target) && Decoded(w.view, target) == Some(m) && m.id == id
    ensures Known(run[|run| - 1], m) && target == MessageKey(m)
  {
    RunsKeepInv(run);
    hide IsRun, RowsKnown, OpsKnow, OnlyHeads, HeadsApart, MessageKey, Decoded, Names;
    IndexNamesOwn(run[|run| - 1], id, target) by { hide *; }
    ResolvesRight(run[|run| - 1], target, m);
  }
}
