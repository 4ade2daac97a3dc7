/**
 How the rows of the table represent the abstract store: which rows exist, what they hold,
 and which leftovers (orphan index rows, expired messages without a receipt) are allowed.
 */
module Layout {
  import opened Prelude
  import opened Types
  import opened StoreSpec
  import opened Keys
  import opened Tables

  // -- Cells ----------------------------------------------------------------

  function AgentCells(ua: UserAgent): Row {
    var seen := map["seen" := Decimal(ua.lastSeen)];
    match ua.bridge
    case None => seen
    case Some(b) => seen["bridge" := b.bridge]["app" := b.appId]["token" := b.token]
  }

  /** `user_agent_from_row`. */
  function AgentFromRow(uaid: string, row: Row): UserAgent {
    var seen := NumberCell(row, "seen", U64);
    UserAgent(
      uaid,
      if "bridge" in row && "app" in row && "token" in row
      then Some(BridgeAddress(row["bridge"], row["app"], row["token"])) else None,
      if seen.Some? then seen.value else 0)
  }

  lemma AgentRowRoundTrip(ua: UserAgent)
    requires ua.lastSeen < U64
    ensures AgentFromRow(ua.uaid, AgentCells(ua)) == ua
  {
    hide ParseNumber, Decimal;
    DecimalRoundTrip(ua.lastSeen, U64);
  }

  predicate GoodSub(sub: Subscription) {
    IsUaid(sub.uaid) && IsChannel(sub.channelId) && IsId(sub.push)
    && (sub.vapid.Some? ==> |sub.vapid.value| == 65)
  }

  function ChannelCells(sub: Subscription): Row {
    var cells := map["push" := sub.push];
    if sub.vapid.Some? then cells["vapid" := sub.vapid.value] else cells
  }

  /** The channel row read back; `None` when it lacks its push id. */
  function SubFromRow(uaid: string, channelId: string, row: Row): Option<Subscription> {
    if "push" !in row then None
    else Some(Subscription(uaid, channelId, row["push"],
                           if "vapid" in row && |row["vapid"]| == 65 then Some(row["vapid"]) else None))
  }

  function ReceiptCells(r: Receipt): Row {
    map["msg" := r.msgId, "status" := Decimal(r.status)]
  }

  function ReceiptFromRow(rsub: string, row: Row): Option<Receipt> {
    var status := NumberCell(row, "status", U16);
    if "msg" !in row || status.None? then None else Some(Receipt(rsub, row["msg"], status.value))
  }

  // -- Representation -------------------------------------------------------

  /** The contents of an index row for message row `k`. */
  predicate Points(row: Row, k: Key) {
    row == map["row" := Encode(k)]
  }

  ghost predicate PointsSomewhere(row: Row) {
    exists k: Key :: k.Msg? && Good(k) && Points(row, k)
  }

  /** Message rows are exactly the rows of the messages in `all`. */
  ghost predicate MessageRows(view: View, all: map<string, Message>) {
    (forall id :: id in all ==>
       WellFormed(all[id]) && all[id].id == id
       && MessageKey(all[id]) in view && view[MessageKey(all[id])] == Cells(all[id]))
    && (forall k: Key :: k in view && k.Msg? ==> RowOfMessage(view[k], k, all))
  }

  predicate RowOfMessage(row: Row, k: Key, all: map<string, Message>) {
    "id" in row && row["id"] in all && MessageKey(all[row["id"]]) == k
  }

  /** Every message has its id row; other id rows still point at some message row. */
  ghost predicate IdRows(view: View, all: map<string, Message>) {
    (forall id :: id in all ==> Mid(id) in view && Points(view[Mid(id)], MessageKey(all[id])))
    && (forall id :: Mid(id) in view ==> PointsSomewhere(view[Mid(id)]))
  }

  /** Every message that wants a receipt has its expiry row; other expiry rows carry spent ids. */
  ghost predicate ExpiryRows(view: View, all: map<string, Message>, used: set<string>) {
    all.Keys <= used
    && (forall id :: id in all && all[id].rsub.Some? ==>
          Rexp(all[id].expiry, id) in view && Points(view[Rexp(all[id].expiry, id)], MessageKey(all[id])))
    && (forall e, id :: Rexp(e, id) in view ==>
          id in used && PointsSomewhere(view[Rexp(e, id)])
          && (id in all ==> all[id].rsub.Some? && all[id].expiry == e))
  }

  ghost predicate AgentRows(view: View, agents: map<string, UserAgent>) {
    (forall u :: Ua(u) in view <==> u in agents)
    && (forall u :: u in agents ==>
          IsUaid(u) && agents[u].uaid == u && agents[u].lastSeen < U64 && view[Ua(u)] == AgentCells(agents[u]))
  }

  ghost predicate ChannelRows(view: View, channels: map<ChannelKey, Subscription>) {
    (forall u, c :: Ch(u, c) in view <==> (u, c) in channels)
    && (forall u, c :: (u, c) in channels ==>
          GoodSub(channels[(u, c)]) && channels[(u, c)].uaid == u && channels[(u, c)].channelId == c
          && view[Ch(u, c)] == ChannelCells(channels[(u, c)]))
  }

  ghost predicate PushRows(view: View, push: map<string, ChannelKey>) {
    (forall p :: Push(p) in view <==> p in push)
    && (forall p :: p in push ==> view[Push(p)] == map["uaid" := push[p].0, "ch" := push[p].1])
  }

  ghost predicate QueueRows(view: View, receipts: map<string, Queue>) {
    (forall r :: Rsub(r) in view <==> r in receipts)
    && (forall r :: r in receipts ==> IsId(r))
    && (forall r, n :: Rq(r, n) in view <==> r in receipts && n in receipts[r])
    && (forall r, n :: r in receipts && n in receipts[r] ==>
          n < U64 && receipts[r][n].rsub == r && receipts[r][n].status < U16
          && view[Rq(r, n)] == ReceiptCells(receipts[r][n]))
  }

  ghost predicate RouteRows(view: View, routes: map<Recipient, string>) {
    (forall to :: Route(to) in view <==> to in routes)
    && (forall to :: to in routes ==> view[Route(to)] == map["node" := routes[to]])
  }

  /** What the calls so far tell: the latest reaping time, every message id ever inserted, and
      the ids reaped without a receipt. */
  datatype History = History(horizon: nat, used: set<string>, reaped: set<string>)

  /** What the table holds beyond the abstract state: the messages `reap` left behind. */
  datatype Residue = Residue(left: map<string, Message>, past: History)

  /** A message is left behind only when it had expired and nobody waits for a receipt. */
  ghost predicate LeftBehind(s: State, x: Residue) {
    x.left.Keys !! s.messages.Keys && x.left.Keys <= x.past.reaped
    && forall id :: id in x.left ==>
         x.left[id].id == id && x.left[id].rsub.None? && x.left[id].expiry <= x.past.horizon
  }

  /** Every message that has a row. */
  function Everything(s: State, x: Residue): map<string, Message> {
    s.messages + x.left
  }

  ghost predicate Rep(view: View, s: State, x: Residue) {
    MessageRows(view, Everything(s, x))
    && IdRows(view, Everything(s, x))
    && ExpiryRows(view, Everything(s, x), x.past.used)
    && AgentRows(view, s.userAgents)
    && ChannelRows(view, s.channels)
    && PushRows(view, s.push)
    && QueueRows(view, s.receipts)
    && RouteRows(view, s.routes)
    && LeftBehind(s, x)
  }

  // -- Frames ---------------------------------------------------------------

  /** The two views agree on every row except `k`. */
  ghost predicate OnlyAt(view: View, view': View, k: Key) {
    (forall j :: j in view && j != k ==> j in view' && view'[j] == view[j])
    && (forall j :: j in view' && j != k ==> j in view)
  }

  /** A change to one row concerns only the part of the representation of its kind. */
  lemma MessageFrame(view: View, view': View, k: Key, all: map<string, Message>)
    requires OnlyAt(view, view', k) && !k.Msg? && MessageRows(view, all)
    ensures MessageRows(view', all)
  {
    hide WellFormed, MessageKey, Cells, RowOfMessage;
    forall id | id in all ensures MessageKey(all[id]).Msg? {
      MessageKeyKind(all[id]);
    }
  }

  lemma MessageKeyKind(m: Message)
    ensures MessageKey(m).Msg? && MessageKey(m).uaid == m.uaid
  {
  }

  lemma IdFrame(view: View, view': View, k: Key, all: map<string, Message>)
    requires OnlyAt(view, view', k) && !k.Mid? && IdRows(view, all)
    ensures IdRows(view', all)
  {
    hide Points, PointsSomewhere, MessageKey;
  }

  lemma ExpiryFrame(view: View, view': View, k: Key, all: map<string, Message>, used: set<string>)
    requires OnlyAt(view, view', k) && !k.Rexp? && ExpiryRows(view, all, used)
    ensures ExpiryRows(view', all, used)
  {
    hide Points, PointsSomewhere, MessageKey;
  }

  lemma AgentFrame(view: View, view': View, k: Key, agents: map<string, UserAgent>)
    requires OnlyAt(view, view', k) && !k.Ua? && AgentRows(view, agents)
    ensures AgentRows(view', agents)
  {
    hide AgentCells, IsUaid;
  }

  lemma ChannelFrame(view: View, view': View, k: Key, channels: map<ChannelKey, Subscription>)
    requires OnlyAt(view, view', k) && !k.Ch? && ChannelRows(view, channels)
    ensures ChannelRows(view', channels)
  {
    hide ChannelCells, GoodSub;
  }

  lemma PushFrame(view: View, view': View, k: Key, push: map<string, ChannelKey>)
    requires OnlyAt(view, view', k) && !k.Push? && PushRows(view, push)
    ensures PushRows(view', push)
  {
  }

  lemma QueueFrame(view: View, view': View, k: Key, receipts: map<string, Queue>)
    requires OnlyAt(view, view', k) && !k.Rsub? && !k.Rq? && QueueRows(view, receipts)
    ensures QueueRows(view', receipts)
  {
    hide ReceiptCells, IsId;
  }

  lemma RouteFrame(view: View, view': View, k: Key, routes: map<Recipient, string>)
    requires OnlyAt(view, view', k) && !k.Route? && RouteRows(view, routes)
    ensures RouteRows(view', routes)
  {
  }

  /** Everything a row change leaves alone, at once. */
  lemma Framed(view: View, view': View, k: Key, s: State, x: Residue)
    requires Rep(view, s, x) && OnlyAt(view, view', k)
    ensures !k.Msg? ==> MessageRows(view', Everything(s, x))
    ensures !k.Mid? ==> IdRows(view', Everything(s, x))
    ensures !k.Rexp? ==> ExpiryRows(view', Everything(s, x), x.past.used)
    ensures !k.Ua? ==> AgentRows(view', s.userAgents)
    ensures !k.Ch? ==> ChannelRows(view', s.channels)
    ensures !k.Push? ==> PushRows(view', s.push)
    ensures !k.Rsub? && !k.Rq? ==> QueueRows(view', s.receipts)
    ensures !k.Route? ==> RouteRows(view', s.routes)
  {
    hide MessageRows, IdRows, ExpiryRows, AgentRows, ChannelRows, PushRows, QueueRows, RouteRows, OnlyAt, LeftBehind;
    hide Everything;
    if !k.Msg? { MessageFrame(view, view', k, Everything(s, x)); }
    if !k.Mid? { IdFrame(view, view', k, Everything(s, x)); }
    if !k.Rexp? { ExpiryFrame(view, view', k, Everything(s, x), x.past.used); }
    if !k.Ua? { AgentFrame(view, view', k, s.userAgents); }
    if !k.Ch? { ChannelFrame(view, view', k, s.channels); }
    if !k.Push? { PushFrame(view, view', k, s.push); }
    if !k.Rsub? && !k.Rq? { QueueFrame(view, view', k, s.receipts); }
    if !k.Route? { RouteFrame(view, view', k, s.routes); }
  }

  // -- Changes to message rows ----------------------------------------------

  lemma CellsId(m: Message)
    ensures "id" in Cells(m) && Cells(m)["id"] == m.id
  {
    hide Cells;
    CellsAt(m);
  }

  /** Two stored messages never share a row. */
  lemma OwnRow(view: View, all: map<string, Message>, i: string, j: string)
    requires MessageRows(view, all) && i in all && j in all
    requires MessageKey(all[i]) == MessageKey(all[j])
    ensures i == j
  {
    hide WellFormed, MessageKey, Cells;
    CellsId(all[i]);
    CellsId(all[j]);
  }

  /** Deleting the row of a stored message. */
  lemma MessageRowDeleted(view: View, all: map<string, Message>, id: string)
    requires MessageRows(view, all) && id in all
    ensures MessageRows(view - {MessageKey(all[id])}, all - {id})
  {
    hide WellFormed, MessageKey, Cells;
    var k := MessageKey(all[id]);
    forall j | j in all && j != id ensures MessageKey(all[j]) != k {
      if MessageKey(all[j]) == k {
        OwnRow(view, all, j, id);
      }
    }
    forall j: Key | j in view && j.Msg? && j != k ensures RowOfMessage(view[j], j, all - {id}) {
      assert RowOfMessage(view[j], j, all);
    }
  }

  /** Writing the row of a new message over whatever the row held. */
  lemma MessageRowWritten(view: View, all: map<string, Message>, m: Message)
    requires MessageRows(view, all) && WellFormed(m) && m.id !in all
    ensures var k := MessageKey(m);
            MessageRows(view[k := Cells(m)], (all - Occupant(view, k))[m.id := m])
  {
    hide WellFormed, MessageKey, Cells;
    var k := MessageKey(m);
    CellsId(m);
    var kept := all - Occupant(view, k);
    var all', view' := kept[m.id := m], view[k := Cells(m)];
    forall j | j in all && MessageKey(all[j]) == k ensures j in Occupant(view, k) {
      CellsId(all[j]);
    }
    forall j | j in kept ensures MessageKey(kept[j]) != k {}
    forall j: Key | j in view' && j.Msg? ensures RowOfMessage(view'[j], j, all') {
      if j != k {
        assert RowOfMessage(view[j], j, all);
        if view[j]["id"] in Occupant(view, k) {
          assert RowOfMessage(view[k], k, all) by {
            MessageKeyKind(m);
          }
        }
      }
    }
  }

  /** The message whose row `k` is. */
  function Occupant(view: View, k: Key): set<string> {
    if k in view && "id" in view[k] then {view[k]["id"]} else {}
  }

  lemma FewerIdRows(view: View, all: map<string, Message>, gone: set<string>)
    requires IdRows(view, all)
    ensures IdRows(view, all - gone)
  {
    hide Points, PointsSomewhere, MessageKey;
  }

  lemma FewerExpiryRows(view: View, all: map<string, Message>, gone: set<string>, used: set<string>)
    requires ExpiryRows(view, all, used)
    ensures ExpiryRows(view, all - gone, used)
  {
    hide Points, PointsSomewhere, MessageKey;
  }

  lemma IdRowDeleted(view: View, all: map<string, Message>, id: string)
    requires IdRows(view, all) && id !in all
    ensures IdRows(view - {Mid(id)}, all)
  {
    hide Points, PointsSomewhere, MessageKey;
  }

  lemma IdRowWritten(view: View, all: map<string, Message>, m: Message)
    requires IdRows(view, all) && WellFormed(m)
    ensures IdRows(view[Mid(m.id) := map["row" := Encode(MessageKey(m))]], all[m.id := m])
  {
    hide Encode, WellFormed, MessageKey, Good;
    MessageKeyGood(m);
    MessageKeyKind(m);
    var row := map["row" := Encode(MessageKey(m))];
    assert Points(row, MessageKey(m));
    assert PointsSomewhere(row);
  }

  lemma ExpiryRowWritten(view: View, all: map<string, Message>, m: Message, used: set<string>)
    requires ExpiryRows(view, all, used) && WellFormed(m) && m.id !in used
    ensures var row := map["row" := Encode(MessageKey(m))];
            ExpiryRows(if m.rsub.Some? then view[Rexp(m.expiry, m.id) := row] else view, all[m.id := m], used + {m.id})
  {
    hide Encode, WellFormed, MessageKey, Good;
    MessageKeyGood(m);
    MessageKeyKind(m);
    var row := map["row" := Encode(MessageKey(m))];
    assert Points(row, MessageKey(m));
    assert PointsSomewhere(row);
  }

  lemma ExpiryRowDeleted(view: View, all: map<string, Message>, e: nat, id: string, used: set<string>)
    requires ExpiryRows(view, all, used) && id !in all
    ensures ExpiryRows(view - {Rexp(e, id)}, all, used)
  {
    hide Points, PointsSomewhere, MessageKey;
  }

  // -- Steps on the whole representation ------------------------------------

  /** The conditional delete of a message row that still holds message `id`. */
  lemma RepRowGone(view: View, s: State, x: Residue, id: string)
    requires Rep(view, s, x) && id in Everything(s, x)
    ensures var k := MessageKey(Everything(s, x)[id]);
            Rep(view - {k}, Without(s, {id}), x.(left := x.left - {id}))
  {
    hide MessageRows, IdRows, ExpiryRows, AgentRows, ChannelRows, PushRows, QueueRows, RouteRows, MessageKey, OnlyAt;
    var all := Everything(s, x);
    var k := MessageKey(all[id]);
    DeletedOnlyAt(view, k);
    MessageKeyKind(all[id]);
    Framed(view, view - {k}, k, s, x);
    MessageRowDeleted(view, all, id);
    FewerIdRows(view - {k}, all, {id});
    FewerExpiryRows(view - {k}, all, {id}, x.past.used);
    assert Everything(Without(s, {id}), x.(left := x.left - {id})) == all - {id};
  }

  lemma DeletedOnlyAt(view: View, k: Key)
    ensures OnlyAt(view, view - {k}, k)
  {
  }

  lemma WrittenOnlyAt(view: View, k: Key, row: Row)
    ensures OnlyAt(view, view[k := row], k)
  {
  }

  lemma RepIdRowGone(view: View, s: State, x: Residue, id: string)
    requires Rep(view, s, x) && id !in Everything(s, x)
    ensures Rep(view - {Mid(id)}, s, x)
  {
    hide MessageRows, IdRows, ExpiryRows, AgentRows, ChannelRows, PushRows, QueueRows, RouteRows, OnlyAt, LeftBehind;
    DeletedOnlyAt(view, Mid(id));
    Framed(view, view - {Mid(id)}, Mid(id), s, x);
    IdRowDeleted(view, Everything(s, x), id);
  }

  lemma RepExpiryRowGone(view: View, s: State, x: Residue, e: nat, id: string)
    requires Rep(view, s, x) && id !in Everything(s, x)
    ensures Rep(view - {Rexp(e, id)}, s, x)
  {
    hide MessageRows, IdRows, ExpiryRows, AgentRows, ChannelRows, PushRows, QueueRows, RouteRows, OnlyAt, LeftBehind;
    DeletedOnlyAt(view, Rexp(e, id));
    Framed(view, view - {Rexp(e, id)}, Rexp(e, id), s, x);
    ExpiryRowDeleted(view, Everything(s, x), e, id, x.past.used);
  }

  /** A message with a topic shares its row with the stored message in its slot, and no other. */
  lemma SlotRow(view: View, all: map<string, Message>, s: State, m: Message)
    requires MessageRows(view, all) && TopicsAgree(s) && s.messages.Keys <= all.Keys
    requires forall id :: id in s.messages ==> all[id] == s.messages[id]
    requires m.topic.Some?
    ensures var k := MessageKey(m);
            if SlotOf(m).value in s.topics then Occupant(view, k) == {s.topics[SlotOf(m).value]}
            else Occupant(view, k) !! s.messages.Keys
  {
    hide WellFormed, Cells;
    var k, t := MessageKey(m), SlotOf(m).value;
    if t in s.topics {
      var id := s.topics[t];
      CellsId(all[id]);
    } else if k in view {
      assert RowOfMessage(view[k], k, all);
    }
  }

  /** A message without a topic has a row of its own. */
  lemma OwnSlot(view: View, all: map<string, Message>, m: Message)
    requires MessageRows(view, all) && m.topic.None? && m.id !in all
    ensures Occupant(view, MessageKey(m)) == {}
  {
    hide WellFormed, Cells;
    var k := MessageKey(m);
    assert k in view ==> RowOfMessage(view[k], k, all);
  }

  lemma StoredAreIn(s: State, x: Residue)
    requires LeftBehind(s, x)
    ensures s.messages.Keys <= Everything(s, x).Keys
    ensures forall id :: id in s.messages ==> Everything(s, x)[id] == s.messages[id]
  {
  }

  /** The message a new message's row displaces is the one in its topic slot, or one left behind. */
  lemma OccupantIs(view: View, s: State, x: Residue, m: Message)
    requires Rep(view, s, x) && TopicsAgree(s) && WellFormed(m) && m.id !in x.past.used
    ensures var occ := Occupant(view, MessageKey(m));
            Inserted(s, m).messages == (s.messages - occ)[m.id := m] && (m.topic.None? ==> occ == {})
  {
    hide MessageRows, IdRows, ExpiryRows, AgentRows, ChannelRows, PushRows, QueueRows, RouteRows, Cells;
    hide WellFormed, TopicsAgree, Occupant, MessageKey, Everything, LeftBehind;
    var all, occ := Everything(s, x), Occupant(view, MessageKey(m));
    UsedCovers(view, s, x);
    StoredAreIn(s, x);
    if m.topic.Some? {
      SlotRow(view, all, s, m);
      assert SlotOf(m).value !in s.topics ==> s.messages - occ == s.messages;
    } else {
      OwnSlot(view, all, m);
      assert s.messages - occ == s.messages;
    }
  }

  /** A message row is written: an insert as far as the messages go. */
  lemma RepInserted(view: View, s: State, x: Residue, m: Message)
    requires Rep(view, s, x) && TopicsAgree(s) && WellFormed(m) && m.id !in x.past.used
    ensures var row := map["row" := Encode(MessageKey(m))];
            var v1 := view[MessageKey(m) := Cells(m)][Mid(m.id) := row];
            Rep(if m.rsub.Some? then v1[Rexp(m.expiry, m.id) := row] else v1,
                Inserted(s, m),
                x.(left := x.left - Occupant(view, MessageKey(m)), past := x.past.(used := x.past.used + {m.id})))
  {
    hide MessageRows, IdRows, ExpiryRows, AgentRows, ChannelRows, PushRows, QueueRows, RouteRows, MessageKey, OnlyAt;
    hide Cells, WellFormed, TopicsAgree, Encode, Points;
    var all, k, row := Everything(s, x), MessageKey(m), map["row" := Encode(MessageKey(m))];
    var occ := Occupant(view, k);
    var s', x' := Inserted(s, m), x.(left := x.left - occ, past := x.past.(used := x.past.used + {m.id}));
    var all' := (all - occ)[m.id := m];
    UsedCovers(view, s, x);
    MessageKeyKind(m);
    OccupantIs(view, s, x, m);
    assert Everything(s', x') == all' by {
      OccupantNotNew(view, s, x, k, m.id);
    }
    var v1 := view[k := Cells(m)];
    WrittenOnlyAt(view, k, Cells(m));
    Framed(view, v1, k, s, x);
    MessageRowWritten(view, all, m);
    var v2 := v1[Mid(m.id) := row];
    WrittenOnlyAt(v1, Mid(m.id), row);
    FewerIdRows(v1, all, occ);
    IdRowWritten(v1, all - occ, m);
    FewerExpiryRows(v1, all, occ, x.past.used);
    OthersFrame(v1, v2, Mid(m.id), s);
    MessageFrame(v1, v2, Mid(m.id), all');
    ExpiryFrame(v1, v2, Mid(m.id), all - occ, x.past.used);
    ExpiryRowWritten(v2, all - occ, m, x.past.used);
    if m.rsub.Some? {
      var e := Rexp(m.expiry, m.id);
      WrittenOnlyAt(v2, e, row);
      OthersFrame(v2, v2[e := row], e, s);
      MessageFrame(v2, v2[e := row], e, all');
      IdFrame(v2, v2[e := row], e, all');
    }
  }

  lemma UsedCovers(view: View, s: State, x: Residue)
    requires Rep(view, s, x)
    ensures Everything(s, x).Keys <= x.past.used
  {
    hide MessageRows, IdRows, AgentRows, ChannelRows, PushRows, QueueRows, RouteRows;
  }

  lemma OccupantNotNew(view: View, s: State, x: Residue, k: Key, id: string)
    requires Rep(view, s, x) && k.Msg? && id !in x.past.used
    ensures id !in Occupant(view, k)
  {
    hide IdRows, AgentRows, ChannelRows, PushRows, QueueRows, RouteRows;
    if k in view {
      assert RowOfMessage(view[k], k, Everything(s, x));
    }
  }

  /** Rows that are neither message nor index rows keep representing the rest. */
  lemma OthersFrame(view: View, view': View, k: Key, s: State)
    requires OnlyAt(view, view', k) && (k.Mid? || k.Rexp?)
    requires AgentRows(view, s.userAgents) && ChannelRows(view, s.channels) && PushRows(view, s.push)
    requires QueueRows(view, s.receipts) && RouteRows(view, s.routes)
    ensures AgentRows(view', s.userAgents) && ChannelRows(view', s.channels) && PushRows(view', s.push)
    ensures QueueRows(view', s.receipts) && RouteRows(view', s.routes)
  {
    hide AgentRows, ChannelRows, PushRows, QueueRows, RouteRows, OnlyAt;
    AgentFrame(view, view', k, s.userAgents);
    ChannelFrame(view, view', k, s.channels);
    PushFrame(view, view', k, s.push);
    QueueFrame(view, view', k, s.receipts);
    RouteFrame(view, view', k, s.routes);
  }

  // -- The other rows -------------------------------------------------------

  lemma RepAgent(view: View, s: State, x: Residue, ua: UserAgent)
    requires Rep(view, s, x) && IsUaid(ua.uaid) && ua.lastSeen < U64
    ensures Rep(view[Ua(ua.uaid) := AgentCells(ua)], s.(userAgents := s.userAgents[ua.uaid := ua]), x)
  {
    hide MessageRows, IdRows, ExpiryRows, ChannelRows, PushRows, QueueRows, RouteRows, AgentCells, IsUaid, OnlyAt;
    WrittenOnlyAt(view, Ua(ua.uaid), AgentCells(ua));
    Framed(view, view[Ua(ua.uaid) := AgentCells(ua)], Ua(ua.uaid), s, x);
  }

  lemma RepAgentGone(view: View, s: State, x: Residue, uaid: string)
    requires Rep(view, s, x)
    ensures Rep(view - {Ua(uaid)}, s.(userAgents := s.userAgents - {uaid}), x)
  {
    hide MessageRows, IdRows, ExpiryRows, ChannelRows, PushRows, QueueRows, RouteRows, AgentCells, IsUaid, OnlyAt;
    DeletedOnlyAt(view, Ua(uaid));
    Framed(view, view - {Ua(uaid)}, Ua(uaid), s, x);
  }

  lemma RepChannel(view: View, s: State, x: Residue, sub: Subscription)
    requires Rep(view, s, x) && GoodSub(sub)
    ensures var key := (sub.uaid, sub.channelId);
            Rep(view[Ch(sub.uaid, sub.channelId) := ChannelCells(sub)], s.(channels := s.channels[key := sub]), x)
  {
    hide MessageRows, IdRows, ExpiryRows, AgentRows, PushRows, QueueRows, RouteRows, ChannelCells, GoodSub, OnlyAt;
    var k := Ch(sub.uaid, sub.channelId);
    WrittenOnlyAt(view, k, ChannelCells(sub));
    Framed(view, view[k := ChannelCells(sub)], k, s, x);
  }

  lemma RepChannelGone(view: View, s: State, x: Residue, uaid: string, ch: string)
    requires Rep(view, s, x)
    ensures Rep(view - {Ch(uaid, ch)}, s.(channels := s.channels - {(uaid, ch)}), x)
  {
    hide MessageRows, IdRows, ExpiryRows, AgentRows, PushRows, QueueRows, RouteRows, ChannelCells, GoodSub, OnlyAt;
    DeletedOnlyAt(view, Ch(uaid, ch));
    Framed(view, view - {Ch(uaid, ch)}, Ch(uaid, ch), s, x);
  }

  lemma RepPush(view: View, s: State, x: Residue, p: string, key: ChannelKey)
    requires Rep(view, s, x)
    ensures Rep(view[Push(p) := map["uaid" := key.0, "ch" := key.1]], s.(push := s.push[p := key]), x)
  {
    hide MessageRows, IdRows, ExpiryRows, AgentRows, ChannelRows, QueueRows, RouteRows, OnlyAt;
    var row := map["uaid" := key.0, "ch" := key.1];
    WrittenOnlyAt(view, Push(p), row);
    Framed(view, view[Push(p) := row], Push(p), s, x);
  }

  lemma RepPushGone(view: View, s: State, x: Residue, p: string)
    requires Rep(view, s, x)
    ensures Rep(view - {Push(p)}, s.(push := s.push - {p}), x)
  {
    hide MessageRows, IdRows, ExpiryRows, AgentRows, ChannelRows, QueueRows, RouteRows, OnlyAt;
    DeletedOnlyAt(view, Push(p));
    Framed(view, view - {Push(p)}, Push(p), s, x);
  }

  lemma RepQueueAdded(view: View, s: State, x: Residue, rsub: string, row: Row)
    requires Rep(view, s, x) && IsId(rsub) && rsub !in s.receipts
    ensures Rep(view[Rsub(rsub) := row], s.(receipts := s.receipts[rsub := map[]]), x)
  {
    hide MessageRows, IdRows, ExpiryRows, AgentRows, ChannelRows, PushRows, RouteRows, IsId, ReceiptCells, OnlyAt;
    WrittenOnlyAt(view, Rsub(rsub), row);
    Framed(view, view[Rsub(rsub) := row], Rsub(rsub), s, x);
  }

  /** An emptied queue loses its row. */
  lemma RepQueueGone(view: View, s: State, x: Residue, rsub: string)
    requires Rep(view, s, x) && rsub in s.receipts && s.receipts[rsub] == map[]
    ensures Rep(view - {Rsub(rsub)}, s.(receipts := s.receipts - {rsub}), x)
  {
    hide MessageRows, IdRows, ExpiryRows, AgentRows, ChannelRows, PushRows, RouteRows, IsId, ReceiptCells, OnlyAt;
    DeletedOnlyAt(view, Rsub(rsub));
    Framed(view, view - {Rsub(rsub)}, Rsub(rsub), s, x);
  }

  lemma RepEnqueued(view: View, s: State, x: Residue, n: nat, r: Receipt)
    requires Rep(view, s, x) && r.rsub in s.receipts && n < U64 && r.status < U16
    ensures Rep(view[Rq(r.rsub, n) := ReceiptCells(r)], Enqueued(s, n, r), x)
  {
    hide MessageRows, IdRows, ExpiryRows, AgentRows, ChannelRows, PushRows, QueueRows, RouteRows, IsId, ReceiptCells;
    hide OnlyAt;
    WrittenOnlyAt(view, Rq(r.rsub, n), ReceiptCells(r));
    Framed(view, view[Rq(r.rsub, n) := ReceiptCells(r)], Rq(r.rsub, n), s, x);
    ReceiptRowWritten(view, s.receipts, n, r);
  }

  lemma ReceiptRowWritten(view: View, receipts: map<string, Queue>, n: nat, r: Receipt)
    requires QueueRows(view, receipts) && r.rsub in receipts && n < U64 && r.status < U16
    ensures var q: Queue := receipts[r.rsub];
            QueueRows(view[Rq(r.rsub, n) := ReceiptCells(r)], receipts[r.rsub := q[n := r]])
  {
    hide IsId, ReceiptCells;
  }

  lemma RepReceiptGone(view: View, s: State, x: Residue, rsub: string, n: nat)
    requires Rep(view, s, x)
    ensures Rep(view - {Rq(rsub, n)},
                if rsub in s.receipts then s.(receipts := s.receipts[rsub := s.receipts[rsub] - {n}]) else s, x)
  {
    hide MessageRows, IdRows, ExpiryRows, AgentRows, ChannelRows, PushRows, QueueRows, RouteRows, OnlyAt;
    DeletedOnlyAt(view, Rq(rsub, n));
    Framed(view, view - {Rq(rsub, n)}, Rq(rsub, n), s, x);
    ReceiptRowDeleted(view, s.receipts, rsub, n);
  }

  lemma ReceiptRowDeleted(view: View, receipts: map<string, Queue>, rsub: string, n: nat)
    requires QueueRows(view, receipts)
    ensures QueueRows(
              view - {Rq(rsub, n)},
              if rsub in receipts then receipts[rsub := receipts[rsub] - {n}] else receipts)
  {
    hide IsId, ReceiptCells;
  }

  lemma RepRoute(view: View, s: State, x: Residue, to: Recipient, node: string)
    requires Rep(view, s, x)
    ensures Rep(view[Route(to) := map["node" := node]], s.(routes := s.routes[to := node]), x)
  {
    hide MessageRows, IdRows, ExpiryRows, AgentRows, ChannelRows, PushRows, QueueRows, OnlyAt;
    WrittenOnlyAt(view, Route(to), map["node" := node]);
    Framed(view, view[Route(to) := map["node" := node]], Route(to), s, x);
  }

  lemma RepRouteGone(view: View, s: State, x: Residue, to: Recipient)
    requires Rep(view, s, x)
    ensures Rep(view - {Route(to)}, s.(routes := s.routes - {to}), x)
  {
    hide MessageRows, IdRows, ExpiryRows, AgentRows, ChannelRows, PushRows, QueueRows, OnlyAt;
    DeletedOnlyAt(view, Route(to));
    Framed(view, view - {Route(to)}, Route(to), s, x);
  }
}
