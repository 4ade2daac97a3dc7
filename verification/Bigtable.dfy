/**
 The Bigtable store: every call is a few single-row RPCs and scans on the table. When calls
 do not overlap, each takes the abstract store where `StoreSpec.Step` says, exactly as the
 in-memory store does; `Rep` ties the rows to the abstract state.
 */
module Bigtable {
  import opened Prelude
  import opened Types
  import opened StoreSpec
  import opened Keys
  import opened Tables
  import opened Layout
  import opened TableSpec
  import Sequence

  /** Microseconds the clock can show: timestamps in microseconds are signed 64-bit integers. */
  const CLOCK_END: nat := 0x8000_0000_0000_0000

  /** How far the sequence counter has run ahead of the clock, plus the messages that can still owe a receipt. */
  function Load(s: State): nat {
    (if s.last > CLOCK_END then s.last - CLOCK_END else 0) + |s.messages|
  }

  /** Row `key` is the row of message `m`, stored or left behind. */
  ghost predicate StoredAt(s: State, x: Residue, key: string, m: Message) {
    m.id in Everything(s, x) && Everything(s, x)[m.id] == m && key == Encode(MessageKey(m))
  }

  // -- Reading rows ---------------------------------------------------------

  /** A message row reads back as the stored message it belongs to. */
  lemma MessageRowReads(view: View, all: map<string, Message>, k: Key)
    requires MessageRows(view, all) && k in view && k.Msg?
    ensures "id" in view[k] && view[k]["id"] in all && all[view[k]["id"]].id == view[k]["id"]
    ensures MessageFromRow(Encode(k), view[k]) == Some(all[view[k]["id"]])
    ensures MessageKey(all[view[k]["id"]]) == k
  {
    hide WellFormed, MessageKey, Cells, Encode, MessageFromRow;
    assert RowOfMessage(view[k], k, all);
    MessageRowRoundTrip(all[view[k]["id"]]);
  }

  lemma MessageHasRow(view: View, all: map<string, Message>, id: string)
    requires MessageRows(view, all) && id in all
    ensures WellFormed(all[id]) && all[id].id == id && Good(MessageKey(all[id]))
    ensures MessageKey(all[id]) in view && "id" in view[MessageKey(all[id])] && view[MessageKey(all[id])]["id"] == id
  {
    hide WellFormed, MessageKey, Cells, Good;
    MessageKeyGood(all[id]);
    CellsId(all[id]);
  }

  lemma RepMessages(view: View, s: State, x: Residue)
    requires Rep(view, s, x)
    ensures MessageRows(view, Everything(s, x)) && IdRows(view, Everything(s, x))
    ensures ExpiryRows(view, Everything(s, x), x.past.used) && LeftBehind(s, x)
  {
  }

  lemma RepRest(view: View, s: State, x: Residue)
    requires Rep(view, s, x)
    ensures AgentRows(view, s.userAgents) && ChannelRows(view, s.channels) && PushRows(view, s.push)
    ensures QueueRows(view, s.receipts) && RouteRows(view, s.routes)
  {
  }

  /** Row `k` holds message `m`. */
  ghost predicate Resides(view: View, all: map<string, Message>, k: Key, m: Message) {
    k in view && "id" in view[k] && m.id == view[k]["id"] && m.id in all && all[m.id] == m && MessageKey(m) == k
  }

  /** The rows of a message scan are all the messages of the user agent, each once. */
  lemma RowsGiveMessages(view: View, all: map<string, Message>, uaid: string, ks: seq<Key>, ms: seq<Message>)
    requires MessageRows(view, all) && |ms| == |ks|
    requires forall i :: 0 <= i < |ks| ==> Resides(view, all, ks[i], ms[i]) && Selects(ScanMessages(uaid), ks[i])
    requires forall k :: k in view && Selects(ScanMessages(uaid), k) ==> k in ks
    requires forall i, j :: 0 <= i < j < |ks| ==> Below(Encode(ks[i]), Encode(ks[j]))
    ensures forall i :: 0 <= i < |ms| ==> ms[i].uaid == uaid
    ensures forall i, j :: 0 <= i < j < |ms| ==> ms[i].id != ms[j].id
    ensures forall id :: id in all && all[id].uaid == uaid ==> all[id] in ms
  {
    hide MessageRows, Below, Encode, MessageKey, Good, WellFormed;
    forall i | 0 <= i < |ms| ensures ms[i].uaid == uaid {
      MessageKeyKind(ms[i]);
    }
    forall i, j | 0 <= i < j < |ms| ensures ms[i].id != ms[j].id {
      BelowTotal(Encode(ks[i]), Encode(ks[j]));
    }
    forall id | id in all && all[id].uaid == uaid ensures all[id] in ms {
      MessageHasRow(view, all, id);
      MessageKeyKind(all[id]);
      var k := MessageKey(all[id]);
      assert k in ks;
      var i :| 0 <= i < |ks| && ks[i] == k;
      assert ms[i] == all[id];
    }
  }

  lemma EmptyRep()
    ensures Rep(map[], EMPTY, Residue(map[], History(0, {}, {}))) && StoreSpec.Valid(EMPTY)
  {
    hide Good, WellFormed, MessageKey, Cells, Points, PointsSomewhere, RowOfMessage;
  }

  lemma RepQueue(view: View, s: State, x: Residue, rsub: string)
    requires Rep(view, s, x)
    ensures Rsub(rsub) in view <==> rsub in s.receipts
  {
    hide MessageRows, IdRows, ExpiryRows, AgentRows, ChannelRows, PushRows, RouteRows, LeftBehind;
  }

  /** A receipt written under an unused number. */
  lemma QueuedRow(view: View, s: State, x: Residue, n: nat, r: Receipt)
    requires Rep(view, s, x) && StoreSpec.Valid(s) && r.rsub in s.receipts
    requires s.last < n < U64 && r.status < U16
    ensures Rep(Mutated(view, Rq(r.rsub, n), false, ReceiptCells(r)), Enqueued(s, n, r), x)
  {
    hide MessageRows, IdRows, ExpiryRows, AgentRows, ChannelRows, PushRows, RouteRows, LeftBehind, Everything;
    RepEnqueued(view, s, x, n, r);
    assert Rq(r.rsub, n) !in view;
    assert "msg" in ReceiptCells(r);
    NewRow(view, Rq(r.rsub, n), ReceiptCells(r));
  }

  /** The two steps of removing a stored message. */
  lemma RemovedRows(view: View, s: State, x: Residue, m: Message)
    requires Rep(view, s, x) && m.id in Everything(s, x) && Everything(s, x)[m.id] == m
    ensures Ascii(m.id) && Good(MessageKey(m)) && Good(Mid(m.id)) && Holds(view, MessageKey(m), "id", Some(m.id))
    ensures Rep(Mutated(view, MessageKey(m), true, map[]) - {Mid(m.id)},
                Without(s, {m.id}), x.(left := x.left - {m.id}))
  {
    hide MessageRows, IdRows, ExpiryRows, AgentRows, ChannelRows, PushRows, QueueRows, RouteRows, LeftBehind;
    hide MessageKey, Mutated;
    MessageHasRow(view, Everything(s, x), m.id);
    IdsAreAscii(m.id);
    ClearedRow(view, MessageKey(m));
    RepRowGone(view, s, x, m.id);
    RepIdRowGone(view - {MessageKey(m)}, Without(s, {m.id}), x.(left := x.left - {m.id}), m.id);
  }

  lemma WithoutCount(s: State, id: string)
    ensures |Without(s, {id}).messages| == |s.messages| - (if id in s.messages then 1 else 0)
  {
    assert Without(s, {id}).messages.Keys == s.messages.Keys - {id};
    if id !in s.messages {
      assert s.messages.Keys - {id} == s.messages.Keys;
    }
  }

  lemma WithoutAbsent(s: State, id: string)
    requires id !in s.messages && StoreSpec.Valid(s)
    ensures Without(s, {id}) == s
  {
    assert s.messages - {id} == s.messages;
    assert Without(s, {id}).topics == s.topics;
  }

  lemma OneLess(s: State, x: Residue, id: string)
    ensures Everything(Without(s, {id}), x.(left := x.left - {id})) == Everything(s, x) - {id}
  {
  }

  lemma StoredMessage(view: View, s: State, x: Residue, m: Message)
    requires Rep(view, s, x) && m.id in Everything(s, x) && Everything(s, x)[m.id] == m
    ensures m.rsub.Some? ==> IsId(m.rsub.value) && m.id in s.messages
    ensures m.id in s.messages ==> s.messages[m.id] == m
  {
    hide IdRows, ExpiryRows, AgentRows, ChannelRows, PushRows, QueueRows, RouteRows, MessageKey, Cells, RowOfMessage;
  }

  /** Queueing a receipt does not touch the messages. */
  lemma SameMessages(s: State, id: string, s': State, x: Residue)
    requires s'.messages == Without(s, {id}).messages
    ensures Everything(s', x) == Everything(Without(s, {id}), x)
  {
  }

  /** Removing a message, and queueing its 410 if it can be, is a purge of one message, or of none. */
  lemma RemovedOnePurges(s: State, m: Message, s': State, out: seq<Numbered>)
    requires StoreSpec.Valid(s) && (m.rsub.Some? ==> m.id in s.messages)
             && (m.id in s.messages ==> s.messages[m.id] == m)
    requires if Owes(s, m)
             then |out| == 1 && out[0].0 > s.last && out[0].1 == ReceiptFor(m, 410)
                  && s' == Enqueued(Without(s, {m.id}), out[0].0, out[0].1)
             else out == [] && s' == Without(s, {m.id})
    ensures Purged(s, {m.id} * s.messages.Keys, s', out)
  {
    hide Purged;
    if m.id in s.messages {
      assert {m.id} * s.messages.Keys == {m.id};
      PurgedOne(s, m.id, s', out);
    } else {
      assert {m.id} * s.messages.Keys == {};
      WithoutAbsent(s, m.id);
      PurgedNothing(s);
    }
  }

  // -- Sweeping a channel ---------------------------------------------------

  /** Of the listed messages, the first `i` have been dealt with: those of channel `key` are gone. */
  ghost predicate Sweeping(s0: State, key: ChannelKey, ms: seq<Message>, i: nat, gone: set<string>, s: State,
    out: seq<Numbered>) {
    Purged(s0, gone, s, out) && gone <= MessagesOf(s0, {key})
    && forall j :: 0 <= j < i && j < |ms| && ms[j].id in MessagesOf(s0, {key}) ==> ms[j].id in gone
  }

  lemma SweepStart(s0: State, key: ChannelKey, ms: seq<Message>)
    ensures Sweeping(s0, key, ms, 0, {}, s0, [])
  {
    PurgedNothing(s0);
  }

  lemma SweepSkip(s0: State, key: ChannelKey, ms: seq<Message>, i: nat, gone: set<string>, s: State, out: seq<Numbered>)
    requires Sweeping(s0, key, ms, i, gone, s, out) && i < |ms| && ChannelOf(ms[i]) != key
    requires Listed(s0, key, ms)
    ensures Sweeping(s0, key, ms, i + 1, gone, s, out)
  {
    hide Purged;
  }

  lemma SweepOne(
    s0: State, key: ChannelKey, ms: seq<Message>, i: nat, gone: set<string>,
    s: State, out: seq<Numbered>, s': State, more: seq<Numbered>)
    requires Sweeping(s0, key, ms, i, gone, s, out) && i < |ms| && ChannelOf(ms[i]) == key
    requires Listed(s0, key, ms)
    requires Purged(s, {ms[i].id} * s.messages.Keys, s', more)
    ensures Sweeping(s0, key, ms, i + 1, gone + ({ms[i].id} * s.messages.Keys), s', out + more)
  {
    hide Purged;
    PurgedMessages(s0, gone, s, out);
    PurgedCompose(s0, gone, s, out, {ms[i].id} * s.messages.Keys, s', more);
  }

  /** Purging a channel's messages and then dropping the channel is dropping the channel. */
  lemma SweepDone(s0: State, key: ChannelKey, ms: seq<Message>, gone: set<string>, s: State, out: seq<Numbered>)
    requires Sweeping(s0, key, ms, |ms|, gone, s, out) && key in s0.channels
    requires Listed(s0, key, ms)
    ensures Dropped(s0, {}, {key}, WithoutOwners(s, {}, {key}), out)
  {
    assert gone == MessagesOf(s0, {key});
    OwnersCommute(s0, gone, {}, {key});
  }

  // -- What a sweep takes of what was left behind -----------------------------

  /** Of the first `i` listed messages, those of channel `key`. */
  function Handled(ms: seq<Message>, i: nat, key: ChannelKey): set<string> {
    set j | 0 <= j < i && j < |ms| && ChannelOf(ms[j]) == key :: ms[j].id
  }

  lemma HandledNone(left: map<string, Message>, ms: seq<Message>, key: ChannelKey)
    ensures left - Handled(ms, 0, key) == left
  {
  }

  lemma HandledOne(left: map<string, Message>, ms: seq<Message>, i: nat, key: ChannelKey)
    requires i < |ms|
    ensures left - Handled(ms, i + 1, key) ==
            if ChannelOf(ms[i]) == key then left - Handled(ms, i, key) - {ms[i].id} else left - Handled(ms, i, key)
  {
    assert Handled(ms, i + 1, key) == Handled(ms, i, key) + (if ChannelOf(ms[i]) == key then {ms[i].id} else {});
  }

  /** All handled, nothing of the channel is left behind. */
  lemma HandledAll(s: State, x: Residue, key: ChannelKey, ms: seq<Message>)
    requires forall j :: 0 <= j < |ms| ==> ms[j].id in Everything(s, x) && Everything(s, x)[ms[j].id] == ms[j]
    requires forall id :: id in Everything(s, x) && Everything(s, x)[id].uaid == key.0 ==> Everything(s, x)[id] in ms
    requires forall id :: id in Everything(s, x) ==> Everything(s, x)[id].id == id
    ensures x.left - Handled(ms, |ms|, key) == x.left - LeftIn(x.left, {key})
  {
    forall id | id in x.left ensures id in Handled(ms, |ms|, key) <==> id in LeftIn(x.left, {key}) {
      assert Everything(s, x)[id] == x.left[id];
      if ChannelOf(x.left[id]) == key {
        var j :| 0 <= j < |ms| && ms[j] == x.left[id];
      }
    }
  }

  lemma LeftInNone(left: map<string, Message>)
    ensures left - LeftIn(left, {}) == left
  {
  }

  /** Two sweeps of what was left behind are one. */
  lemma LeftInCompose(left: map<string, Message>, a: set<ChannelKey>, b: set<ChannelKey>)
    ensures (left - LeftIn(left, a)) - LeftIn(left - LeftIn(left, a), b) == left - LeftIn(left, a + b)
  {
  }

  lemma RepLeft(view: View, s: State, x: Residue)
    requires Rep(view, s, x)
    ensures LeftBehind(s, x)
  {
  }

  lemma SweptChannels(s0: State, key: ChannelKey, ms: seq<Message>, i: nat, gone: set<string>, s: State,
    out: seq<Numbered>)
    requires Sweeping(s0, key, ms, i, gone, s, out)
    ensures s.channels == s0.channels
  {
  }

  ghost predicate Listed(s: State, key: ChannelKey, ms: seq<Message>) {
    (forall j :: 0 <= j < |ms| && ms[j].id in s.messages ==> s.messages[ms[j].id] == ms[j])
    && (forall id :: id in MessagesOf(s, {key}) ==> exists j :: 0 <= j < |ms| && ms[j].id == id)
  }

  lemma ListsChannel(s: State, x: Residue, key: ChannelKey, ms: seq<Message>)
    requires LeftBehind(s, x) && StoreSpec.Valid(s)
    requires forall j :: 0 <= j < |ms| ==> ms[j].id in Everything(s, x) && Everything(s, x)[ms[j].id] == ms[j]
    requires forall id :: id in Everything(s, x) && Everything(s, x)[id].uaid == key.0 ==> Everything(s, x)[id] in ms
    ensures Listed(s, key, ms)
  {
    hide Everything;
    StoredAreIn(s, x);
    forall id | id in MessagesOf(s, {key}) ensures exists j :: 0 <= j < |ms| && ms[j].id == id {
      assert s.messages[id].id == id;
      var j :| 0 <= j < |ms| && ms[j] == s.messages[id];
    }
  }

  /** The two rows of a channel. */
  lemma OwnerRowsGone(view: View, s: State, x: Residue, key: ChannelKey)
    requires Rep(view, s, x) && StoreSpec.Valid(s) && key in s.channels
    ensures IsId(s.channels[key].push)
    ensures Rep(view - {Ch(key.0, key.1)} - {Push(s.channels[key].push)}, WithoutOwners(s, {}, {key}), x)
    ensures StoreSpec.Valid(WithoutOwners(s, {}, {key}))
  {
    hide Rep, StoreSpec.Valid;
    RepRest(view, s, x);
    var s1 := s.(channels := s.channels - {key});
    RepChannelGone(view, s, x, key.0, key.1);
    RepPushGone(view - {Ch(key.0, key.1)}, s1, x, s.channels[key].push);
    OneOwnerGone(s, key, s1.(push := s1.push - {s.channels[key].push}));
  }

  lemma ChannelReads(view: View, channels: map<ChannelKey, Subscription>, u: string, c: string)
    requires ChannelRows(view, channels)
    ensures Ch(u, c) in view <==> (u, c) in channels
    ensures (u, c) in channels ==> SubFromRow(u, c, view[Ch(u, c)]) == Some(channels[(u, c)])
  {
  }

  /** The first `i` scanned user agents that are stale. */
  ghost function StaleAmong(s: State, cutoff: nat, ks: seq<Key>, i: nat): set<string>
    requires i <= |ks| && forall j :: 0 <= j < |ks| ==> ks[j].Ua? && ks[j].uaid in s.userAgents
  {
    set j | 0 <= j < i && s.userAgents[ks[j].uaid].lastSeen < cutoff :: ks[j].uaid
  }

  lemma StaleStep(s: State, cutoff: nat, ks: seq<Key>, i: nat)
    requires i < |ks| && forall j :: 0 <= j < |ks| ==> ks[j].Ua? && ks[j].uaid in s.userAgents
    requires forall j :: 0 <= j < i ==> ks[j] != ks[i]
    ensures var done, u := StaleAmong(s, cutoff, ks, i), ks[i].uaid;
            if s.userAgents[u].lastSeen < cutoff
            then u !in done && StaleAmong(s, cutoff, ks, i + 1) == done + {u}
            else StaleAmong(s, cutoff, ks, i + 1) == done
  {
  }

  lemma StaleNone(s: State, cutoff: nat, ks: seq<Key>)
    requires forall j :: 0 <= j < |ks| ==> ks[j].Ua? && ks[j].uaid in s.userAgents
    ensures StaleAmong(s, cutoff, ks, 0) == {} && ChannelsOf(s, {}) == {}
  {
  }

  /** What a scan of the user agents reads. */
  ghost predicate AgentsScanned(s: State, rows: seq<(string, Row)>, ks: seq<Key>) {
    |rows| == |ks|
    && (forall j :: 0 <= j < |ks| ==>
          Good(ks[j]) && ks[j].Ua? && ks[j].uaid in s.userAgents && rows[j].0 == Encode(ks[j])
          && AgentFromRow(ks[j].uaid, rows[j].1) == s.userAgents[ks[j].uaid])
    && (forall u :: u in s.userAgents ==> Ua(u) in ks)
    && (forall i, j :: 0 <= i < j < |ks| ==> ks[i] != ks[j])
  }

  lemma ScannedAgents(view: View, s: State, x: Residue, rows: seq<(string, Row)>, ks: seq<Key>)
    requires Rep(view, s, x) && |rows| == |ks|
    requires forall j :: 0 <= j < |ks| ==>
      Good(ks[j]) && ks[j] in view && ks[j].Ua? && rows[j] == (Encode(ks[j]), view[ks[j]])
    requires forall k :: k in view && Selects(ScanAgents, k) ==> k in ks
    requires forall i, j :: 0 <= i < j < |ks| ==> Below(Encode(ks[i]), Encode(ks[j]))
    ensures AgentsScanned(s, rows, ks)
  {
    RepRest(view, s, x);
    hide Rep, Encode, Below, AgentCells, AgentFromRow;
    forall j | 0 <= j < |ks|
      ensures ks[j].uaid in s.userAgents && AgentFromRow(ks[j].uaid, rows[j].1) == s.userAgents[ks[j].uaid]
    {
      AgentRowRoundTrip(s.userAgents[ks[j].uaid]);
    }
    forall i, j | 0 <= i < j < |ks| ensures ks[i] != ks[j] {
      BelowTotal(Encode(ks[i]), Encode(ks[j]));
    }
  }

  lemma AllStale(s: State, cutoff: nat, rows: seq<(string, Row)>, ks: seq<Key>)
    requires AgentsScanned(s, rows, ks)
    ensures StaleAmong(s, cutoff, ks, |ks|) == Stale(s, cutoff)
  {
    hide Encode, Good, AgentFromRow;
    forall u | u in Stale(s, cutoff) ensures u in StaleAmong(s, cutoff, ks, |ks|) {
      var j :| 0 <= j < |ks| && ks[j] == Ua(u);
    }
  }

  // -- Sweeping user agents -------------------------------------------------

  lemma OneMoreDropped(
    s0: State, done: set<ChannelKey>, mid: State, out: seq<Numbered>, k: ChannelKey, s': State, more: seq<Numbered>)
    requires Dropped(s0, {}, done, mid, out) && k in s0.channels
    requires Dropped(mid, {}, {k} * mid.channels.Keys, s', more)
    ensures Dropped(s0, {}, done + {k}, s', out + more) && done + ({k} * mid.channels.Keys) == done + {k}
  {
    hide Dropped;
    DroppedFacts(s0, {}, done, mid, out);
    DroppedCompose(s0, {}, done, mid, out, {}, {k} * mid.channels.Keys, s', more);
    var none: set<string> := {};
    assert none + none == none;
    assert done + ({k} * mid.channels.Keys) == done + {k};
  }

  lemma AgentAfterChannels(s0: State, uaid: string, done: set<ChannelKey>, s: State, out: seq<Numbered>)
    requires Dropped(s0, {}, done, s, out)
    ensures Dropped(s0, {uaid}, done, s.(userAgents := s.userAgents - {uaid}), out)
  {
    hide Dropped;
    var s' := s.(userAgents := s.userAgents - {uaid});
    DroppedAgent(s, uaid, s');
    DroppedCompose(s0, {}, done, s, out, {uaid}, {}, s', []);
    var none: set<string> := {};
    assert none + {uaid} == {uaid} && done + {} == done && out + [] == out;
  }

  /** The scanned channel rows are the channels of the user agent. */
  lemma ScannedChannels(view: View, s: State, x: Residue, uaid: string, ks: seq<Key>, done: set<ChannelKey>)
    requires Rep(view, s, x)
    requires forall k :: k in view && Selects(ScanChannels(uaid), k) ==> k in ks
    requires forall j :: 0 <= j < |ks| ==> ks[j] in view && ks[j].Ch? && ks[j].uaid == uaid
    requires done == set j | 0 <= j < |ks| :: (uaid, ks[j].channelId)
    ensures done == ChannelsOf(s, {uaid})
  {
    RepRest(view, s, x);
    hide Rep;
    forall k | k in ChannelsOf(s, {uaid}) ensures k in done {
      assert Ch(k.0, k.1) in ks;
      var j :| 0 <= j < |ks| && ks[j] == Ch(k.0, k.1);
      assert k == (uaid, ks[j].channelId);
    }
  }

  lemma ScannedChannel(view: View, s: State, x: Residue, uaid: string, k: Key)
    requires Rep(view, s, x) && k in view && Selects(ScanChannels(uaid), k)
    ensures (uaid, k.channelId) in s.channels
  {
    RepRest(view, s, x);
    hide Rep;
  }

  // -- Single rows ----------------------------------------------------------

  lemma AgentReads(view: View, s: State, x: Residue, uaid: string)
    requires Rep(view, s, x)
    ensures Ua(uaid) in view <==> uaid in s.userAgents
    ensures uaid in s.userAgents ==>
      view[Ua(uaid)] == AgentCells(s.userAgents[uaid]) && AgentFromRow(uaid, view[Ua(uaid)]) == s.userAgents[uaid]
      && s.userAgents[uaid].uaid == uaid && s.userAgents[uaid].lastSeen < U64
  {
    RepRest(view, s, x);
    hide Rep, AgentCells, AgentFromRow;
    if uaid in s.userAgents {
      AgentRowRoundTrip(s.userAgents[uaid]);
    }
  }

  lemma AgentWritten(view: View, s: State, x: Residue, ua: UserAgent)
    requires Rep(view, s, x) && Shaped(Call.CreateUserAgent(ua)) && ua.uaid !in s.userAgents
    ensures Rep(Mutated(view, Ua(ua.uaid), false, AgentCells(ua)), s.(userAgents := s.userAgents[ua.uaid := ua]), x)
  {
    hide Rep, AgentCells, IsUaid, Mutated;
    AgentReads(view, s, x, ua.uaid);
    assert AgentCells(ua) != map[] by {
      SeenCell(ua);
    }
    NewRow(view, Ua(ua.uaid), AgentCells(ua));
    RepAgent(view, s, x, ua);
  }

  lemma SeenCell(ua: UserAgent)
    ensures "seen" in AgentCells(ua) && ("bridge" in AgentCells(ua) <==> ua.bridge.Some?)
  {
  }

  lemma SeenChanged(ua: UserAgent, now: nat)
    ensures AgentCells(ua) + map["seen" := Decimal(now)] == AgentCells(ua.(lastSeen := now))
  {
    hide Decimal;
  }

  lemma TokenChanged(ua: UserAgent, token: string)
    requires ua.bridge.Some?
    ensures AgentCells(ua) + map["token" := token] == AgentCells(ua.(bridge := Some(ua.bridge.value.(token := token))))
  {
    hide Decimal;
  }

  /** A user agent row with one cell overwritten. */
  lemma AgentUpdated(view: View, s: State, x: Residue, uaid: string, cells: Row, ua: UserAgent)
    requires Rep(view, s, x) && uaid in s.userAgents && IsUaid(uaid) && ua.uaid == uaid && ua.lastSeen < U64
    requires AgentCells(s.userAgents[uaid]) + cells == AgentCells(ua)
    ensures Rep(Mutated(view, Ua(uaid), false, cells), s.(userAgents := s.userAgents[uaid := ua]), x)
  {
    hide Rep, AgentCells, AgentFromRow, IsUaid;
    AgentReads(view, s, x, uaid);
    SeenCell(ua);
    RepAgent(view, s, x, ua);
  }

  /** The state after `touch_user_agent`, which writes the time whatever was there. */
  function Stamped(s: State, uaid: string, now: nat): State {
    if uaid in s.userAgents
    then s.(userAgents := s.userAgents[uaid := s.userAgents[uaid].(lastSeen := now)]) else s
  }

  /** The two stores agree on a touch exactly when the time does not go backwards. */
  lemma TouchAgrees(s: State, uaid: string, now: nat)
    ensures Stamped(s, uaid, now) == Touched(s, uaid, now) <==>
            Suits(s, History(0, {}, {}), Call.TouchUserAgent(uaid, now))
  {
    if uaid in s.userAgents {
      assert Stamped(s, uaid, now).userAgents[uaid].lastSeen == now;
      assert Touched(s, uaid, now).userAgents[uaid].lastSeen >= s.userAgents[uaid].lastSeen;
    }
  }

  // -- Channels -------------------------------------------------------------

  lemma ChannelsListed(
    view: View, s: State, x: Residue, uaid: string, ks: seq<Key>, list: seq<Subscription>)
    requires Rep(view, s, x) && |list| == |ks|
    requires forall j :: 0 <= j < |ks| ==> ks[j] in view && ks[j].Ch? && ks[j].uaid == uaid
    requires forall k :: k in view && Selects(ScanChannels(uaid), k) ==> k in ks
    requires forall i, j :: 0 <= i < j < |ks| ==> Below(Encode(ks[i]), Encode(ks[j]))
    requires forall j :: 0 <= j < |ks| ==> SubFromRow(uaid, ks[j].channelId, view[ks[j]]) == Some(list[j])
    ensures ListsSubscriptions(s, uaid, list)
  {
    RepRest(view, s, x);
    hide Rep, Encode, Below, SubFromRow;
    forall j | 0 <= j < |list|
      ensures (uaid, ks[j].channelId) in s.channels && list[j] == s.channels[(uaid, ks[j].channelId)]
    {
      ChannelReads(view, s.channels, uaid, ks[j].channelId);
    }
    forall i, j | 0 <= i < j < |list| ensures list[i].channelId != list[j].channelId {
      BelowTotal(Encode(ks[i]), Encode(ks[j]));
    }
    forall sub: Subscription
      | sub.uaid == uaid && (uaid, sub.channelId) in s.channels && s.channels[(uaid, sub.channelId)] == sub
      ensures sub in list
    {
      assert Ch(uaid, sub.channelId) in ks;
      var j :| 0 <= j < |ks| && ks[j] == Ch(uaid, sub.channelId);
      assert list[j] == sub;
    }
  }

  lemma ChannelWritten(view: View, s: State, x: Residue, sub: Subscription)
    requires Rep(view, s, x) && GoodSub(sub) && Suits(s, x.past, Call.CreateSubscription(sub))
    ensures var key := (sub.uaid, sub.channelId);
            Rep(Mutated(Mutated(view, Ch(sub.uaid, sub.channelId), false, ChannelCells(sub)),
                        Push(sub.push), false, map["uaid" := sub.uaid, "ch" := sub.channelId]),
                s.(channels := s.channels[key := sub], push := s.push[sub.push := key]), x)
  {
    RepRest(view, s, x);
    hide Rep, Mutated, GoodSub;
    var key, k := (sub.uaid, sub.channelId), Ch(sub.uaid, sub.channelId);
    assert "push" in ChannelCells(sub);
    NewRow(view, k, ChannelCells(sub));
    RepChannel(view, s, x, sub);
    var v1 := view[k := ChannelCells(sub)];
    var row: Row := map["uaid" := sub.uaid, "ch" := sub.channelId];
    assert row["uaid"] == sub.uaid;
    NewRow(v1, Push(sub.push), row);
    RepPush(v1, s.(channels := s.channels[key := sub]), x, sub.push, key);
  }

  lemma PushReads(view: View, s: State, x: Residue, p: string)
    requires Rep(view, s, x) && StoreSpec.Valid(s)
    ensures Push(p) in view <==> p in s.push
    ensures p in s.push ==>
      view[Push(p)] == map["uaid" := s.push[p].0, "ch" := s.push[p].1]
      && IsUaid(s.push[p].0) && IsChannel(s.push[p].1)
      && s.push[p] in s.channels && s.channels[s.push[p]].push == p
  {
    RepRest(view, s, x);
    hide Rep, IsUaid, IsChannel;
  }

  // -- Messages -------------------------------------------------------------

  lemma InsertedRows(view: View, s: State, x: Residue, m: Message)
    requires Rep(view, s, x) && TopicsAgree(s) && WellFormed(m) && m.id !in x.past.used
    ensures var row := map["row" := Encode(MessageKey(m))];
            var v1 := Mutated(Mutated(view, MessageKey(m), true, Cells(m)), Mid(m.id), false, row);
            Rep(if m.rsub.Some? then Mutated(v1, Rexp(m.expiry, m.id), false, row) else v1,
                Inserted(s, m),
                x.(left := x.left - Occupant(view, MessageKey(m)), past := x.past.(used := x.past.used + {m.id})))
  {
    hide Rep, Mutated, WellFormed, MessageKey, Encode, Cells, TopicsAgree, Inserted, Occupant, Everything;
    hide PointsSomewhere;
    IndexFree(view, s, x, m);
    var row: Row := map["row" := Encode(MessageKey(m))];
    var k := MessageKey(m);
    MessageKeyKind(m);
    RepInserted(view, s, x, m);
    CellsId(m);
    ReplacedRow(view, k, Cells(m));
    var v0 := view[k := Cells(m)];
    IndexRow(v0, Mid(m.id), row["row"]);
    var v1 := v0[Mid(m.id) := row];
    assert Rexp(m.expiry, m.id) !in v1;
    IndexRow(v1, Rexp(m.expiry, m.id), row["row"]);
  }

  /** A new message finds at most an orphan id row, and no expiry row. */
  lemma IndexFree(view: View, s: State, x: Residue, m: Message)
    requires Rep(view, s, x) && m.id !in x.past.used
    ensures Mid(m.id) in view ==> PointsSomewhere(view[Mid(m.id)])
    ensures Rexp(m.expiry, m.id) !in view
  {
    RepMessages(view, s, x);
    hide Rep, MessageKey, MessageRows, Everything, LeftBehind, Points, PointsSomewhere;
  }

  /** Writing an index row over another, or over none. */
  lemma IndexRow(view: View, k: Key, target: string)
    requires k in view ==> PointsSomewhere(view[k])
    ensures Mutated(view, k, false, map["row" := target]) == view[k := map["row" := target]]
  {
    hide Encode, Good;
    var none, row: Row := map[], map["row" := target];
    assert row["row"] == target;
    assert none + row == row;
    if k in view {
      assert view[k] + row == row;
    }
  }

  lemma InsertReady(view: View, s: State, x: Residue, m: Message)
    requires Rep(view, s, x) && StoreSpec.Valid(s) && WellFormed(m) && m.id !in x.past.used
    ensures Good(MessageKey(m)) && Good(Mid(m.id)) && (m.rsub.Some? ==> Good(Rexp(m.expiry, m.id)))
    ensures m.id !in s.messages && TopicsAgree(s)
  {
    hide Rep;
    MessageKeyGood(m);
    UsedCovers(view, s, x);
  }

  /** A message shares the row of one with a topic exactly when it shares its slot. */
  lemma KeyIsSlot(a: Message, m: Message)
    requires m.topic.Some?
    ensures MessageKey(a) == MessageKey(m) <==> SlotOf(a) == SlotOf(m)
  {
  }

  /** A row holds the message it is found under. */
  lemma OccupantHas(view: View, all: map<string, Message>, k: Key, id: string)
    requires MessageRows(view, all) && k.Msg? && id in all
    ensures id in Occupant(view, k) <==> MessageKey(all[id]) == k
  {
    hide WellFormed, MessageKey, Cells;
    CellsId(all[id]);
    assert k in view ==> RowOfMessage(view[k], k, all);
  }

  /** Of what was left behind, a new message's row displaces exactly what is in its topic slot. */
  lemma OccupantLeft(view: View, s: State, x: Residue, m: Message)
    requires Rep(view, s, x) && m.id !in x.past.used
    ensures x.left - Occupant(view, MessageKey(m)) == x.left - SameSlot(x.left, m)
  {
    hide Rep, Cells, IdRows, ExpiryRows, MessageRows, MessageKey, LeftBehind, Occupant;
    RepMessages(view, s, x);
    UsedCovers(view, s, x);
    var k := MessageKey(m);
    MessageKeyKind(m);
    if m.topic.None? {
      OwnSlot(view, Everything(s, x), m);
    } else {
      forall id | id in x.left ensures id in Occupant(view, k) <==> id in SameSlot(x.left, m) {
        assert Everything(s, x)[id] == x.left[id];
        OccupantHas(view, Everything(s, x), k, id);
        KeyIsSlot(x.left[id], m);
      }
    }
  }

  /** What the abstract store deletes, from the row that was found. */
  lemma DeletedIs(s: State, x: Residue, id: string, owner: Option<ChannelKey>)
    requires LeftBehind(s, x) && StoreSpec.Valid(s)
    ensures Deleted(s, id, owner) == if RowDeletable(s, x, id, owner).Some? then Without(s, {id}) else s
    ensures Deleted(s, id, owner).last == s.last && |Deleted(s, id, owner).messages| <= |s.messages|
  {
    hide StoreSpec.Valid, LeftBehind;
    StoredAreIn(s, x);
    WithoutCount(s, id);
    if id !in s.messages {
      WithoutAbsent(s, id);
    }
    hide Everything;
  }

  /** Deleting by id, from where the message is. */
  lemma DeleteStep(s: State, x: Residue, id: string, owner: Option<ChannelKey>)
    requires LeftBehind(s, x) && StoreSpec.Valid(s)
    ensures var m := RowDeletable(s, x, id, owner);
            var s' := if m.Some? then Without(s, {id}) else s;
            var x' := if m.Some? then x.(left := x.left - {id}) else x;
            TableStep(s, x, Call.DeleteMessage(id, owner), s', x', Found(m))
            && s'.last == s.last && |s'.messages| <= |s.messages|
  {
    hide StoreSpec.Valid, LeftBehind, Deleted, RowDeletable, Without;
    DeletedIs(s, x, id, owner);
  }

  lemma InsertedCount(s: State, m: Message)
    ensures |Inserted(s, m).messages| <= |s.messages| + 1 && Inserted(s, m).last == s.last
  {
    var slot := SlotOf(m);
    if slot.Some? && slot.value in s.topics {
      var kept := s.messages - {s.topics[slot.value]};
      Subset(kept.Keys, s.messages.Keys);
      PutCount(kept, m.id, m);
    } else {
      PutCount(s.messages, m.id, m);
    }
  }

  lemma PutCount(messages: map<string, Message>, id: string, m: Message)
    ensures |messages[id := m]| <= |messages| + 1
  {
    assert messages[id := m].Keys == messages.Keys + {id};
  }

  lemma Subset<T>(a: set<T>, b: set<T>)
    requires a <= b
    ensures |a| <= |b|
  {
    assert b == a + (b - a);
  }

  /** The due rows are the due messages, stored or left behind. */
  lemma DueAmong(s: State, x: Residue, uaid: string, now: nat, keys: seq<string>, ms: seq<Message>)
    requires |keys| == |ms|
    requires forall id :: id in Everything(s, x) ==> Everything(s, x)[id].id == id
    requires forall i :: 0 <= i < |ms| ==> StoredAt(s, x, keys[i], ms[i]) && ms[i].uaid == uaid
    requires forall id :: id in Everything(s, x) && Everything(s, x)[id].uaid == uaid ==> Everything(s, x)[id] in ms
    ensures forall m :: m in ms && m.expiry > now <==> Due(Everything(s, x), uaid, now, m)
  {
    hide Everything, MessageKey, Encode;
    forall m ensures m in ms && m.expiry > now <==> Due(Everything(s, x), uaid, now, m) {
      if m in ms {
        var i :| 0 <= i < |ms| && ms[i] == m;
      }
      if Due(Everything(s, x), uaid, now, m) {
        assert Everything(s, x)[m.id] in ms;
      }
    }
  }

  lemma EverythingNamed(view: View, s: State, x: Residue)
    requires Rep(view, s, x)
    ensures forall id :: id in Everything(s, x) ==> Everything(s, x)[id].id == id
  {
    hide IdRows, ExpiryRows, AgentRows, ChannelRows, PushRows, QueueRows, RouteRows, WellFormed, MessageKey, Cells;
  }

  /** The row an index row names, and what is in it. */
  lemma IndexTarget(view: View, s: State, x: Residue, row: Row, k: Key)
    requires Rep(view, s, x) && k.Msg? && Good(k) && Points(row, k)
    ensures "row" in row && row["row"] == Encode(k)
    ensures k in view ==>
      "id" in view[k] && view[k]["id"] in Everything(s, x)
      && MessageFromRow(Encode(k), view[k]) == Some(Everything(s, x)[view[k]["id"]])
      && Everything(s, x)[view[k]["id"]].id == view[k]["id"]
      && MessageKey(Everything(s, x)[view[k]["id"]]) == k
  {
    RepMessages(view, s, x);
    hide Rep, Encode, Good, MessageKey, MessageRows, Everything, MessageFromRow, LeftBehind, IdRows, ExpiryRows;
    if k in view {
      MessageRowReads(view, Everything(s, x), k);
    }
  }

  lemma PointsOnce(row: Row, j: Key, k: Key)
    requires Points(row, j) && Points(row, k)
    ensures Encode(j) == Encode(k)
  {
    hide Encode;
    assert row["row"] == Encode(j);
  }

  /** An index row that names some message row names the row of its own message, if it is stored. */
  lemma IndexNames(view: View, s: State, x: Residue, row: Row, k: Key, id: string)
    requires Rep(view, s, x) && k.Msg? && Good(k) && Points(row, k)
    requires id in Everything(s, x) ==> Points(row, MessageKey(Everything(s, x)[id]))
    ensures id in Everything(s, x) ==>
      k == MessageKey(Everything(s, x)[id]) && k in view && "id" in view[k] && view[k]["id"] == id
  {
    RepMessages(view, s, x);
    hide Rep, Encode, Good, MessageKey, MessageRows, Everything, LeftBehind, IdRows, ExpiryRows, Points, WellFormed;
    if id in Everything(s, x) {
      MessageHasRow(view, Everything(s, x), id);
      PointsOnce(row, k, MessageKey(Everything(s, x)[id]));
      EncodeInjective(k, MessageKey(Everything(s, x)[id]));
    }
  }

  lemma IdReads(view: View, s: State, x: Residue, id: string) returns (k: Key)
    requires Rep(view, s, x) && Mid(id) in view
    ensures k.Msg? && Good(k) && Points(view[Mid(id)], k)
    ensures id in Everything(s, x) ==> Points(view[Mid(id)], MessageKey(Everything(s, x)[id]))
  {
    RepMessages(view, s, x);
    hide Rep, Good, MessageKey, MessageRows, Everything, LeftBehind, ExpiryRows, Points;
    k :| k.Msg? && Good(k) && Points(view[Mid(id)], k);
  }

  lemma IdPresent(view: View, s: State, x: Residue, id: string)
    requires Rep(view, s, x) && id in Everything(s, x)
    ensures Mid(id) in view
  {
    RepMessages(view, s, x);
    hide Rep, MessageKey, MessageRows, Everything, LeftBehind, ExpiryRows, Points, PointsSomewhere;
  }

  // -- Receipt queues -------------------------------------------------------

  lemma QueueCreated(view: View, s: State, x: Residue, rsub: string)
    requires Rep(view, s, x) && IsId(rsub) && rsub !in s.receipts
    ensures Rep(Mutated(view, Rsub(rsub), false, map["c" := "1"]), s.(receipts := s.receipts[rsub := map[]]), x)
  {
    hide Rep, IsId, Mutated;
    RepQueue(view, s, x, rsub);
    var row: Row := map["c" := "1"];
    assert row["c"] == "1";
    NewRow(view, Rsub(rsub), row);
    RepQueueAdded(view, s, x, rsub, row);
  }

  lemma ReceiptReads(r: Receipt)
    requires r.status < U16
    ensures ReceiptFromRow(r.rsub, ReceiptCells(r)) == Some(r)
  {
    DecimalRoundTrip(r.status, U16);
    hide Decimal, ParseNumber;
  }

  lemma QueueReads(view: View, s: State, x: Residue, rsub: string, n: nat)
    requires Rep(view, s, x)
    ensures Rq(rsub, n) in view <==> rsub in s.receipts && n in s.receipts[rsub]
    ensures Rq(rsub, n) in view ==> n < U64 && ReceiptFromRow(rsub, view[Rq(rsub, n)]) == Some(s.receipts[rsub][n])
  {
    RepRest(view, s, x);
    hide Rep, AgentRows, ChannelRows, PushRows, RouteRows;
    if Rq(rsub, n) in view {
      ReceiptReads(s.receipts[rsub][n]);
    }
    hide ReceiptCells, ReceiptFromRow;
  }

  /** The queue with the receipts in `done` deleted. */
  function Trimmed(s: State, rsub: string, done: set<nat>): State
    requires rsub in s.receipts
  {
    s.(receipts := s.receipts[rsub := s.receipts[rsub] - done])
  }

  /** A receipt row is deleted while the row of its subscription is already gone. */
  lemma OneMoreTrimmed(view: View, row: Row, s: State, x: Residue, rsub: string, done: set<nat>, n: nat)
    requires rsub in s.receipts && Rep(view[Rsub(rsub) := row], Trimmed(s, rsub, done), x)
    ensures Rep((view - {Rq(rsub, n)})[Rsub(rsub) := row], Trimmed(s, rsub, done + {n}), x)
  {
    hide Rep;
    RepReceiptGone(view[Rsub(rsub) := row], Trimmed(s, rsub, done), x, rsub, n);
    assert view[Rsub(rsub) := row] - {Rq(rsub, n)} == (view - {Rq(rsub, n)})[Rsub(rsub) := row];
    assert s.receipts[rsub] - done - {n} == s.receipts[rsub] - (done + {n});
    assert Trimmed(s, rsub, done).receipts[rsub := s.receipts[rsub] - (done + {n})]
        == s.receipts[rsub := s.receipts[rsub] - (done + {n})];
  }

  lemma NothingTrimmed(view: View, s: State, x: Residue, rsub: string)
    requires Rep(view, s, x) && rsub in s.receipts
    ensures Rsub(rsub) in view
    ensures Rep((view - {Rsub(rsub)})[Rsub(rsub) := view[Rsub(rsub)]], Trimmed(s, rsub, {}), x)
  {
    hide Rep;
    RepQueue(view, s, x, rsub);
    assert (view - {Rsub(rsub)})[Rsub(rsub) := view[Rsub(rsub)]] == view;
    assert s.receipts[rsub] - {} == s.receipts[rsub];
    assert s.receipts[rsub := s.receipts[rsub]] == s.receipts;
  }

  lemma AllTrimmed(view: View, row: Row, s: State, x: Residue, rsub: string, done: set<nat>)
    requires rsub in s.receipts && Rep(view[Rsub(rsub) := row], Trimmed(s, rsub, done), x)
    requires Rsub(rsub) !in view && done == s.receipts[rsub].Keys
    ensures Rep(view, s.(receipts := s.receipts - {rsub}), x)
  {
    hide Rep;
    assert s.receipts[rsub] - done == map[];
    RepQueueGone(view[Rsub(rsub) := row], Trimmed(s, rsub, done), x, rsub);
    assert view[Rsub(rsub) := row] - {Rsub(rsub)} == view;
    assert Trimmed(s, rsub, done).receipts - {rsub} == s.receipts - {rsub};
  }

  lemma ScannedQueue(view: View, s: State, x: Residue, rsub: string, ks: seq<Key>)
    requires Rep(view, s, x) && rsub in s.receipts
    requires forall j :: 0 <= j < |ks| ==> ks[j] in view && ks[j].Rq? && ks[j].rsub == rsub
    requires forall k :: k in view && Selects(ScanQueue(rsub), k) ==> k in ks
    ensures (set j | 0 <= j < |ks| :: ks[j].n) == s.receipts[rsub].Keys
  {
    hide Rep, ReceiptFromRow;
    forall n ensures n in (set j | 0 <= j < |ks| :: ks[j].n) <==> n in s.receipts[rsub].Keys {
      if n in s.receipts[rsub] {
        QueueReads(view, s, x, rsub, n);
        assert Rq(rsub, n) in ks;
        var j :| 0 <= j < |ks| && ks[j] == Rq(rsub, n);
        assert ks[j].n == n;
      }
      if n in (set j | 0 <= j < |ks| :: ks[j].n) {
        var j :| 0 <= j < |ks| && ks[j].n == n;
        QueueReads(view, s, x, rsub, n);
      }
    }
  }

  lemma QueueListed(view: View, s: State, x: Residue, rsub: string, ks: seq<Key>, out: seq<Numbered>)
    requires Rep(view, s, x) && |out| == |ks|
    requires forall j :: 0 <= j < |ks| ==> ks[j] in view && ks[j].Rq? && ks[j].rsub == rsub && ks[j].n < U64
    requires forall k :: k in view && Selects(ScanQueue(rsub), k) ==> k in ks
    requires forall i, j :: 0 <= i < j < |ks| ==> Below(Encode(ks[i]), Encode(ks[j]))
    requires forall j :: 0 <= j < |ks| ==> out[j].0 == ks[j].n && ReceiptFromRow(rsub, view[ks[j]]) == Some(out[j].1)
    ensures IsReading(if rsub in s.receipts then s.receipts[rsub] else map[], out)
  {
    hide Rep, ReceiptFromRow, Encode, Below;
    var q: Queue := if rsub in s.receipts then s.receipts[rsub] else map[];
    forall i, j | 0 <= i < j < |out| ensures out[i].0 < out[j].0 {
      QueueScansInOrder(rsub, ks[i].n, ks[j].n);
    }
    forall j | 0 <= j < |out| ensures out[j].0 in q && q[out[j].0] == out[j].1 {
      QueueReads(view, s, x, rsub, ks[j].n);
    }
    forall n, r ensures (n, r) in out <==> n in q && q[n] == r {
      if n in q {
        QueueReads(view, s, x, rsub, n);
        assert Rq(rsub, n) in ks;
        var j :| 0 <= j < |ks| && ks[j] == Rq(rsub, n);
        assert out[j] == (n, q[n]);
      }
    }
  }

  lemma ReceiptDropped(s: State, rsub: string, n: nat)
    requires StoreSpec.Valid(s)
    ensures StoreSpec.Valid(s.(receipts := s.receipts - {rsub}))
    ensures rsub in s.receipts ==> StoreSpec.Valid(s.(receipts := s.receipts[rsub := s.receipts[rsub] - {n}]))
    ensures rsub !in s.receipts ==> StoreSpec.Valid(s.(receipts := s.receipts[rsub := map[]]))
  {
  }

  // -- Routes ---------------------------------------------------------------

  lemma RouteReads(view: View, s: State, x: Residue, to: Recipient)
    requires Rep(view, s, x)
    ensures Route(to) in view <==> to in s.routes
    ensures to in s.routes ==> view[Route(to)] == map["node" := s.routes[to]]
  {
    RepRest(view, s, x);
    hide Rep;
  }

  lemma RouteWritten(view: View, s: State, x: Residue, to: Recipient, node: string)
    requires Rep(view, s, x)
    ensures Rep(Mutated(view, Route(to), false, map["node" := node]), s.(routes := s.routes[to := node]), x)
  {
    hide Rep;
    RouteReads(view, s, x, to);
    RepRoute(view, s, x, to, node);
    var none, row: Row := map[], map["node" := node];
    assert row["node"] == node;
    assert none + row == row;
    if to in s.routes {
      assert view[Route(to)] + row == row;
    }
  }

  // -- Reaping --------------------------------------------------------------

  /** An expiry row names a message row, and the row of its own message as long as that is stored. */
  ghost predicate NamesDue(s: State, x: Residue, row: Row, id: string) {
    PointsSomewhere(row)
    && (id in Everything(s, x) ==> Points(row, MessageKey(Everything(s, x)[id])) && Everything(s, x)[id].rsub.Some?)
  }

  /** What a scan of the due expiry rows reads. */
  ghost predicate DueScanned(s: State, x: Residue, now: nat, rows: seq<(string, Row)>, ks: seq<Key>) {
    |rows| == |ks|
    && (forall j :: 0 <= j < |ks| ==>
          Good(ks[j]) && ks[j].Rexp? && rows[j].0 == Encode(ks[j]) && NamesDue(s, x, rows[j].1, ks[j].id)
          && (ks[j].id in s.messages ==> s.messages[ks[j].id].expiry <= now && s.messages[ks[j].id].rsub.Some?))
    && (forall id :: id in s.messages && s.messages[id].rsub.Some? && s.messages[id].expiry <= now ==>
          Named(ks, id))
  }

  ghost predicate Named(ks: seq<Key>, id: string) {
    exists j :: 0 <= j < |ks| && ks[j].Rexp? && ks[j].id == id
  }

  lemma DueRow(view: View, s: State, x: Residue, k: Key)
    requires Rep(view, s, x) && k in view && k.Rexp?
    ensures NamesDue(s, x, view[k], k.id)
    ensures k.id in s.messages ==> s.messages[k.id].expiry == k.expiry && s.messages[k.id].rsub.Some?
  {
    RepMessages(view, s, x);
    StoredAreIn(s, x);
    hide Rep, Points, PointsSomewhere, MessageRows, IdRows, MessageKey, Everything, LeftBehind;
    assert k == Rexp(k.expiry, k.id);
  }

  lemma DuePresent(view: View, s: State, x: Residue, id: string)
    requires Rep(view, s, x) && id in s.messages && s.messages[id].rsub.Some?
    ensures Rexp(s.messages[id].expiry, id) in view
  {
    RepMessages(view, s, x);
    StoredAreIn(s, x);
    hide Rep, Points, PointsSomewhere, MessageRows, IdRows, MessageKey, Everything, LeftBehind;
  }

  lemma ScannedDue(view: View, s: State, x: Residue, now: nat, rows: seq<(string, Row)>, ks: seq<Key>)
    requires Rep(view, s, x) && |rows| == |ks|
    requires forall j :: 0 <= j < |ks| ==>
      Good(ks[j]) && ks[j] in view && ks[j].Rexp? && ks[j].expiry <= now && rows[j] == (Encode(ks[j]), view[ks[j]])
    requires forall k :: k in view && Selects(ScanDue(now), k) ==> k in ks
    ensures DueScanned(s, x, now, rows, ks)
  {
    hide Rep, Encode, NamesDue, Good;
    forall j | 0 <= j < |ks|
      ensures NamesDue(s, x, rows[j].1, ks[j].id)
      ensures ks[j].id in s.messages ==> s.messages[ks[j].id].expiry <= now && s.messages[ks[j].id].rsub.Some?
    {
      DueRow(view, s, x, ks[j]);
    }
    forall id | id in s.messages && s.messages[id].rsub.Some? && s.messages[id].expiry <= now ensures Named(ks, id) {
      DuePresent(view, s, x, id);
      assert Rexp(s.messages[id].expiry, id) in ks;
    }
  }

  /** Removing messages leaves a scanned expiry row as good as it was. */
  lemma StillNames(s0: State, x0: Residue, s: State, x: Residue, row: Row, id: string)
    requires NamesDue(s0, x0, row, id)
    requires forall i :: i in Everything(s, x) ==>
             i in Everything(s0, x0) && Everything(s, x)[i] == Everything(s0, x0)[i]
    ensures NamesDue(s, x, row, id)
  {
    hide PointsSomewhere, Points, MessageKey, Everything;
  }

  /** Of the scanned expiry rows, the first `i` have been dealt with. */
  ghost predicate Reaping(s0: State, now: nat, ks: seq<Key>, i: nat, gone: set<string>, s: State, out: seq<Numbered>) {
    Purged(s0, gone, s, out) && gone <= Expired(s0, now) && gone !! Unclaimed(s0, now)
    && forall j :: 0 <= j < i && j < |ks| && ks[j].Rexp? ==> ks[j].id !in s.messages
  }

  lemma ReapStart(s0: State, now: nat, ks: seq<Key>)
    ensures Reaping(s0, now, ks, 0, {}, s0, [])
  {
    PurgedNothing(s0);
  }

  lemma ReapStep(
    s0: State, now: nat, ks: seq<Key>, i: nat, gone: set<string>, s: State, out: seq<Numbered>, s': State,
    more: seq<Numbered>)
    requires Reaping(s0, now, ks, i, gone, s, out) && i < |ks| && ks[i].Rexp?
    requires ks[i].id in s0.messages ==> s0.messages[ks[i].id].expiry <= now && s0.messages[ks[i].id].rsub.Some?
    requires Purged(s, {ks[i].id} * s.messages.Keys, s', more)
    ensures Reaping(s0, now, ks, i + 1, gone + ({ks[i].id} * s.messages.Keys), s', out + more)
  {
    hide Purged;
    PurgedMessages(s0, gone, s, out);
    PurgedMessages(s, {ks[i].id} * s.messages.Keys, s', more);
    PurgedCompose(s0, gone, s, out, {ks[i].id} * s.messages.Keys, s', more);
  }

  /** The residue after a reap: the expired messages nobody waits for stay behind. */
  ghost function LeaveBehind(s0: State, s: State, x: Residue, now: nat): Residue {
    Residue(x.left + (map id | id in Unclaimed(s, now) :: s.messages[id]), Noted(x.past, s0, Call.Reap(now)))
  }

  /** Messages nobody waits for owe nothing. */
  lemma UnclaimedPurged(s: State, now: nat)
    ensures Purged(s, Unclaimed(s, now), Without(s, Unclaimed(s, now)), [])
  {
  }

  /** Forgetting the expired messages nobody waits for completes the reap of the in-memory store. */
  lemma ReapDone(
    s0: State, x: Residue, now: nat, rows: seq<(string, Row)>, ks: seq<Key>, gone: set<string>, s: State,
    out: seq<Numbered>)
    requires Reaping(s0, now, ks, |ks|, gone, s, out) && DueScanned(s0, x, now, rows, ks)
    ensures Purged(s0, Expired(s0, now), Without(s, Unclaimed(s, now)), out)
  {
    hide Purged;
    var rest := Unclaimed(s, now);
    PurgedMessages(s0, gone, s, out);
    UnclaimedPurged(s, now);
    PurgedCompose(s0, gone, s, out, rest, Without(s, rest), []);
    assert out + [] == out;
    forall id | id in Expired(s0, now) && s0.messages[id].rsub.Some? ensures id !in s.messages {
      assert Named(ks, id);
      var j :| 0 <= j < |ks| && ks[j].Rexp? && ks[j].id == id;
    }
    assert gone + rest == Expired(s0, now);
  }

  lemma RepLeaveBehind(view: View, s0: State, s: State, x: Residue, now: nat)
    requires Rep(view, s, x) && Unclaimed(s, now) <= Unclaimed(s0, now)
    ensures Rep(view, Without(s, Unclaimed(s, now)), LeaveBehind(s0, s, x, now))
  {
    hide MessageRows, IdRows, ExpiryRows, AgentRows, ChannelRows, PushRows, QueueRows, RouteRows, LeftBehind;
    hide Everything;
    SameEverything(s0, s, x, now);
    EverythingNamed(view, s, x);
    StoredAreIn(s, x);
    LeftBehindGrows(s0, s, x, now);
  }

  lemma SameEverything(s0: State, s: State, x: Residue, now: nat)
    requires LeftBehind(s, x)
    ensures Everything(Without(s, Unclaimed(s, now)), LeaveBehind(s0, s, x, now)) == Everything(s, x)
  {
  }

  lemma LeftBehindGrows(s0: State, s: State, x: Residue, now: nat)
    requires LeftBehind(s, x) && Unclaimed(s, now) <= Unclaimed(s0, now)
    requires forall id :: id in s.messages ==> s.messages[id].id == id
    ensures LeftBehind(Without(s, Unclaimed(s, now)), LeaveBehind(s0, s, x, now))
  {
    var left := LeaveBehind(s0, s, x, now).left;
    forall id | id in left
      ensures left[id].id == id && left[id].rsub.None? && left[id].expiry <= Noted(x.past, s0, Call.Reap(now)).horizon
    {
      if id !in Unclaimed(s, now) {
        assert left[id] == x.left[id];
      }
    }
    hide Noted;
  }

  lemma UnclaimedOf(s0: State, gone: set<string>, s: State, out: seq<Numbered>, now: nat)
    requires Purged(s0, gone, s, out) && gone !! Unclaimed(s0, now)
    ensures Unclaimed(s, now) == Unclaimed(s0, now)
    ensures forall id :: id in Unclaimed(s, now) ==> s.messages[id] == s0.messages[id]
  {
  }

  lemma UnclaimedLater(s0: State, now: nat, ks: seq<Key>, gone: set<string>, s: State, out: seq<Numbered>)
    requires Reaping(s0, now, ks, |ks|, gone, s, out)
    ensures Unclaimed(s, now) == Unclaimed(s0, now)
    ensures forall id :: id in Unclaimed(s, now) ==> s.messages[id] == s0.messages[id]
  {
    UnclaimedOf(s0, gone, s, out, now);
  }

  /** A message with an expiry row was not left behind. */
  lemma OnlyClaimed(s: State, x: Residue, row: Row, id: string)
    requires LeftBehind(s, x) && NamesDue(s, x, row, id)
    ensures x.left - {id} == x.left
  {
    hide PointsSomewhere, Points, MessageKey;
    forall i | i in x.left ensures i != id {
      assert Everything(s, x)[i].rsub.None?;
    }
  }

  /** A message that is not there is purged by doing nothing. */
  lemma NothingPurged(s: State, x: Residue, id: string)
    requires id !in Everything(s, x)
    ensures Purged(s, {id} * s.messages.Keys, s, []) && Everything(s, x) - {id} == Everything(s, x)
  {
    assert {id} * s.messages.Keys == {};
    PurgedNothing(s);
  }

  /** Once its message is gone an expiry row can go. */
  lemma AbsentNow(view: View, s: State, x: Residue, k: Key)
    requires Rep(view, s, x) && k.Rexp? && k.id !in Everything(s, x)
    ensures Rep(view - {k}, s, x)
  {
    hide Rep;
    RepExpiryRowGone(view, s, x, k.expiry, k.id);
  }

  lemma FewerMessages(s: State, gone: set<string>)
    ensures Load(Without(s, gone)) <= Load(s) && Without(s, gone).last == s.last
  {
    Subset(Without(s, gone).messages.Keys, s.messages.Keys);
  }

  /** With the rows purged and the receipt-less messages forgotten, the reap is done. */
  lemma ReapEnds(
    view: View, s0: State, x: Residue, now: nat, rows: seq<(string, Row)>, ks: seq<Key>, gone: set<string>,
    s: State, out: seq<Numbered>)
    requires Reaping(s0, now, ks, |ks|, gone, s, out) && DueScanned(s0, x, now, rows, ks)
    requires Rep(view, s, x) && StoreSpec.Valid(s)
    ensures var s', x' := Without(s, Unclaimed(s, now)), LeaveBehind(s0, s, x, now);
            Rep(view, s', x') && StoreSpec.Valid(s') && Load(s') <= Load(s) && s'.last == s.last
            && TableStep(s0, x, Call.Reap(now), s', x', Owed(out))
  {
    hide StoreSpec.Valid, Rep, Reaping, DueScanned, Purged, Load, Without, Unclaimed, Expired, Everything, Noted;
    ReapDone(s0, x, now, rows, ks, gone, s, out);
    UnclaimedLater(s0, now, ks, gone, s, out);
    RepLeaveBehind(view, s0, s, x, now);
    WithoutKeepsValid(s, Unclaimed(s, now));
    FewerMessages(s, Unclaimed(s, now));
  }

  lemma AgentStep(s: State, x: Residue, uaid: string, s': State, x': Residue, out: seq<Numbered>)
    requires TableStep(s, x, Call.DeleteUserAgent(uaid), s', x', Owed(out))
    ensures Dropped(s, {uaid}, ChannelsOf(s, {uaid}), s', out)
    ensures x' == x.(left := x.left - LeftIn(x.left, ChannelsOf(s, {uaid})))
  {
    hide Dropped, ChannelsOf, LeftIn;
  }

  lemma ExpireStep(s: State, x: Residue, cutoff: nat, s': State, out: seq<Numbered>)
    requires Dropped(s, Stale(s, cutoff), ChannelsOf(s, Stale(s, cutoff)), s', out)
    ensures var left := x.left - LeftIn(x.left, ChannelsOf(s, Stale(s, cutoff)));
            TableStep(s, x, Call.ExpireUserAgents(cutoff), s', x.(left := left), Swept(|Stale(s, cutoff)|, out))
  {
    hide Dropped, ChannelsOf, Stale, LeftIn;
  }

  class BigtableStore {
    const t: Table
    /** The static counter behind `next_seq`. */
    var last: nat
    ghost var s: State
    ghost var x: Residue

    /** The rows represent the abstract state. */
    ghost predicate Sound()
      reads this, t
    {
      t.Valid() && Rep(t.view, s, x) && s.last == last
    }

    ghost predicate Valid()
      reads this, t
    {
      Sound() && StoreSpec.Valid(s)
    }

    constructor ()
      ensures Valid() && s == EMPTY && x == Residue(map[], History(0, {}, {})) && fresh(t)
    {
      t := new Table();
      last := 0;
      s := EMPTY;
      x := Residue(map[], History(0, {}, {}));
      new;
      hide Rep, StoreSpec.Valid;
      EmptyRep();
    }

    // -- Primitives ---------------------------------------------------------

    /** `next_seq`. The clock shows less than `CLOCK_END`. */
    method NextNumber() returns (n: nat)
      modifies `last
      ensures n == last > old(last)
      ensures n < CLOCK_END || n == old(last) + 1
    {
      var nowMs: nat := *;
      if nowMs * 1000 >= CLOCK_END {
        nowMs := 0;
      }
      n := Sequence.NextSeq(last, nowMs);
      last := n;
    }

    /** `delete_message_row` and `remove_message`: the row if it still holds the message, then its index. */
    method RemoveMessage(key: string, m: Message) returns (removed: bool)
      requires Valid() && StoredAt(s, x, key, m)
      modifies t, `s, `x
      ensures Valid() && removed
      ensures s == Without(old(s), {m.id}) && x == old(x).(left := old(x).left - {m.id})
      ensures Everything(s, x) == Everything(old(s), old(x)) - {m.id}
    {
      hide StoreSpec.Valid, Rep, MessageKey, Encode, Indexes, Good, Mutated, Holds, Everything, Ascii;
      RemovedRows(t.view, s, x, m);
      var matched := t.MutateIf(key, "id", Some(m.id), true, map[], MessageKey(m));
      removed := matched == Some(true);
      if removed {
        t.Delete(Encode(Mid(m.id)), Mid(m.id));
      }
      WithoutKeepsValid(s, {m.id});
      OneLess(s, x, m.id);
      s, x := Without(s, {m.id}), x.(left := x.left - {m.id});
    }

    method ReceiptSubExists(rsub: string) returns (yes: bool)
      requires Valid() && IsId(rsub)
      ensures yes == (rsub in s.receipts)
    {
      hide StoreSpec.Valid, Rep, Encode, IsId;
      RepQueue(t.view, s, x, rsub);
      var row := t.Get(Encode(Rsub(rsub)), Rsub(rsub));
      yes := row.Some?;
    }

    method EnqueueReceipt(r: Receipt) returns (n: Option<nat>)
      requires Valid() && Shaped(Call.EnqueueReceipt(r)) && Load(s) + 1 < CLOCK_END
      modifies t, `s, `last
      ensures Valid() && Step(old(s), Call.EnqueueReceipt(r), s, Number(n))
      ensures s.messages == old(s).messages && Load(s) <= Load(old(s)) + 1
    {
      hide StoreSpec.Valid, Rep, Encode, IsId, Mutated, ReceiptCells, Indexes;
      var known := ReceiptSubExists(r.rsub);
      if !known {
        return None;
      }
      var number := NextNumber();
      t.Put(Encode(Rq(r.rsub, number)), ReceiptCells(r), Rq(r.rsub, number));
      QueuedRow(old(t.view), s, x, number, r);
      EnqueuedKeepsValid(s, number, r);
      s := Enqueued(s, number, r);
      n := Some(number);
    }

    /** `owe_410`. */
    method Owe410(m: Message) returns (r: Option<Numbered>)
      requires Valid() && (m.rsub.Some? ==> IsId(m.rsub.value)) && Load(s) + 1 < CLOCK_END
      modifies t, `s, `last
      ensures Valid() && Load(s) <= Load(old(s)) + 1
      ensures r.Some? <==> m.rsub.Some? && m.rsub.value in old(s).receipts
      ensures match r
              case None => s == old(s)
              case Some((n, receipt)) =>
                n > old(s).last && receipt == ReceiptFor(m, 410) && s == Enqueued(old(s), n, receipt)
    {
      hide StoreSpec.Valid, Rep, Indexes, IsId;
      if m.rsub.None? {
        return None;
      }
      var receipt := Receipt(m.rsub.value, m.id, 410);
      var n := EnqueueReceipt(receipt);
      r := if n.Some? then Some((n.value, receipt)) else None;
    }

    /** One stored message is removed and its 410 queued. */
    method PurgeOne(key: string, m: Message) returns (out: seq<Numbered>)
      requires Valid() && StoredAt(s, x, key, m)
      requires Load(s) + 1 < CLOCK_END
      modifies t, `s, `x, `last
      ensures Valid() && Load(s) <= Load(old(s))
      ensures Purged(old(s), {m.id} * old(s).messages.Keys, s, out)
      ensures x == old(x).(left := old(x).left - {m.id}) && Everything(s, x) == Everything(old(s), old(x)) - {m.id}
    {
      hide StoreSpec.Valid, Rep, MessageKey, Encode, Indexes, Purged, IsId, Everything;
      StoredMessage(t.view, s, x, m);
      var removed := RemoveMessage(key, m);
      out := [];
      if removed {
        var r := Owe410(m);
        if r.Some? {
          out := [r.value];
        }
      }
      WithoutCount(old(s), m.id);
      RemovedOnePurges(old(s), m, s, out);
      SameMessages(old(s), m.id, s, x);
    }

    /** The message rows of a user agent, decoded. */
    method MessagesIn(uaid: string) returns (keys: seq<string>, ms: seq<Message>)
      requires Valid() && IsUaid(uaid)
      ensures |keys| == |ms|
      ensures forall i :: 0 <= i < |ms| ==> StoredAt(s, x, keys[i], ms[i]) && ms[i].uaid == uaid
      ensures forall i, j :: 0 <= i < j < |ms| ==> ms[i].id != ms[j].id
      ensures forall id :: id in Everything(s, x) && Everything(s, x)[id].uaid == uaid ==> Everything(s, x)[id] in ms
    {
      hide StoreSpec.Valid, Rep, MessageRows, MessageKey, Encode, Indexes, Everything, Below, Good, InRange;
      ghost var all := Everything(s, x);
      RepMessages(t.view, s, x);
      ghost var scan := ScanMessages(uaid);
      var rows, ks := t.Read(ScanStart(ScanMessages(uaid)), ScanEnd(ScanMessages(uaid)), scan);
      keys, ms := [], [];
      for i := 0 to |rows|
        invariant |keys| == |ms| == i
        invariant forall j :: 0 <= j < i ==> keys[j] == Encode(ks[j]) && Resides(t.view, all, ks[j], ms[j])
      {
        MessageRowReads(t.view, all, ks[i]);
        var m := MessageFromRow(rows[i].0, rows[i].1);
        if m.Some? {
          keys, ms := keys + [rows[i].0], ms + [m.value];
        }
      }
      RowsGiveMessages(t.view, all, uaid, ks, ms);
    }

    /** `channel`. A channel row without its push id would be an error; there is none. */
    method ReadChannel(uaid: string, channelId: string) returns (sub: Option<Subscription>)
      requires Valid() && IsUaid(uaid) && IsChannel(channelId)
      ensures sub == Lookup(s.channels, (uaid, channelId))
    {
      hide StoreSpec.Valid, Rep, Encode, Indexes, ChannelRows, IsUaid, IsChannel;
      RepRest(t.view, s, x);
      ChannelReads(t.view, s.channels, uaid, channelId);
      var row := t.Get(Encode(Ch(uaid, channelId)), Ch(uaid, channelId));
      sub := if row.Some? then SubFromRow(uaid, channelId, row.value) else None;
    }

    method DeleteSubscription(uaid: string, channelId: string) returns (out: seq<Numbered>)
      requires Valid() && Shaped(Call.DeleteSubscription(uaid, channelId)) && Load(s) + 1 < CLOCK_END
      modifies t, `s, `x, `last
      ensures Valid() && TableStep(old(s), old(x), Call.DeleteSubscription(uaid, channelId), s, x, Owed(out))
      ensures Load(s) <= Load(old(s))
    {
      hide StoreSpec.Valid, Rep, MessageKey, Encode, Indexes, Everything, Purged, Dropped, Sweeping, Listed, MessagesOf;
      hide IsUaid, IsChannel, GoodSub, LeftBehind, Handled, LeftIn;
      ghost var s0, key := s, (uaid, channelId);
      var sub := ReadChannel(uaid, channelId);
      if sub.None? {
        DroppedNothing(s);
        assert {key} * s.channels.Keys == {};
        LeftInNone(x.left);
        return [];
      }
      assert {key} * s.channels.Keys == {key};
      var keys, ms := MessagesIn(uaid);
      RepLeft(t.view, s, x);
      ListsChannel(s, x, key, ms);
      EverythingNamed(t.view, s, x);
      out := [];
      ghost var gone := {};
      SweepStart(s0, key, ms);
      HandledNone(old(x).left, ms, key);
      for i := 0 to |ms|
        invariant Valid() && x == old(x).(left := old(x).left - Handled(ms, i, key)) && Load(s) <= Load(s0)
        invariant Sweeping(s0, key, ms, i, gone, s, out)
        invariant forall j :: i <= j < |ms| ==> StoredAt(s, x, keys[j], ms[j])
      {
        HandledOne(old(x).left, ms, i, key);
        if ms[i].channelId == channelId {
          ghost var mid := s;
          var more := PurgeOne(keys[i], ms[i]);
          SweepOne(s0, key, ms, i, gone, mid, out, s, more);
          gone := gone + ({ms[i].id} * mid.messages.Keys);
          out := out + more;
        } else {
          SweepSkip(s0, key, ms, i, gone, s, out);
        }
      }
      SweepDone(s0, key, ms, gone, s, out);
      SweptChannels(s0, key, ms, |ms|, gone, s, out);
      HandledAll(s0, old(x), key, ms);
      OwnerRowsGone(t.view, s, x, key);
      t.Delete(Encode(Ch(uaid, channelId)), Ch(uaid, channelId));
      t.Delete(Encode(Push(sub.value.push)), Push(sub.value.push));
      s := WithoutOwners(s, {}, {key});
    }

    /** The channels one by one, then the user agent's own row. */
    method DeleteUserAgent(uaid: string) returns (out: seq<Numbered>)
      requires Valid() && IsUaid(uaid) && Load(s) + 1 < CLOCK_END
      modifies t, `s, `x, `last
      ensures Valid() && TableStep(old(s), old(x), Call.DeleteUserAgent(uaid), s, x, Owed(out))
      ensures Load(s) <= Load(old(s))
    {
      hide StoreSpec.Valid, Rep, Encode, Indexes, Dropped, ChannelsOf, IsUaid, IsChannel, AfterLast, Below, InRange;
      hide LeftIn;
      ghost var s0, v0 := s, t.view;
      var rows, ks := t.Read(ScanStart(ScanChannels(uaid)), ScanEnd(ScanChannels(uaid)), ScanChannels(uaid));
      out := [];
      ghost var done: set<ChannelKey> := {};
      DroppedNothing(s0);
      LeftInNone(x.left);
      for i := 0 to |rows|
        invariant Valid() && x == old(x).(left := old(x).left - LeftIn(old(x).left, done)) && Load(s) <= Load(s0)
        invariant Dropped(s0, {}, done, s, out)
        invariant done == set j | 0 <= j < i :: (uaid, ks[j].channelId)
      {
        KeyTails(ks[i]);
        ScannedChannel(v0, s0, old(x), uaid, ks[i]);
        ghost var mid := s;
        var more := DeleteSubscription(uaid, AfterLast(rows[i].0, '#'));
        OneMoreDropped(s0, done, mid, out, (uaid, ks[i].channelId), s, more);
        LeftInCompose(old(x).left, done, {(uaid, ks[i].channelId)} * mid.channels.Keys);
        done := done + {(uaid, ks[i].channelId)};
        out := out + more;
      }
      ScannedChannels(v0, s0, old(x), uaid, ks, done);
      AgentAfterChannels(s0, uaid, done, s, out);
      AgentGoneKeepsValid(s, uaid);
      RepAgentGone(t.view, s, x, uaid);
      t.Delete(Encode(Ua(uaid)), Ua(uaid));
      s := s.(userAgents := s.userAgents - {uaid});
    }

    /** The scan is a snapshot: each stale user agent of it is deleted once. */
    method ExpireUserAgents(cutoff: nat) returns (count: nat, out: seq<Numbered>)
      requires Valid() && Load(s) + 1 < CLOCK_END
      modifies t, `s, `x, `last
      ensures Valid() && TableStep(old(s), old(x), Call.ExpireUserAgents(cutoff), s, x, Swept(count, out))
      ensures Load(s) <= Load(old(s))
    {
      hide StoreSpec.Valid, Rep, Encode, Indexes, Dropped, ChannelsOf, IsUaid, AgentFromRow, StaleAmong, Stale, Below;
      hide InRange, LeftIn, TableStep;
      ghost var s0 := s;
      var rows, ks := t.Read(ScanStart(ScanAgents), ScanEnd(ScanAgents), ScanAgents);
      ScannedAgents(t.view, s, x, rows, ks);
      count, out := 0, [];
      ghost var done: set<string> := {};
      DroppedNothing(s0);
      StaleNone(s0, cutoff, ks);
      LeftInNone(x.left);
      for i := 0 to |rows|
        invariant Valid() && x == old(x).(left := old(x).left - LeftIn(old(x).left, ChannelsOf(s0, done)))
        invariant Load(s) <= Load(s0)
        invariant done == StaleAmong(s0, cutoff, ks, i) && |done| == count
        invariant Dropped(s0, done, ChannelsOf(s0, done), s, out)
      {
        KeyTails(ks[i]);
        StaleStep(s0, cutoff, ks, i);
        var uaid := StripPrefix(rows[i].0, "ua#").value;
        if AgentFromRow(uaid, rows[i].1).lastSeen < cutoff {
          ghost var mid := s;
          var more := DeleteUserAgent(uaid);
          AgentStep(mid, old(x).(left := old(x).left - LeftIn(old(x).left, ChannelsOf(s0, done))), uaid, s, x, more);
          OneMoreAgent(s0, done, mid, out, uaid, s, more);
          LeftInCompose(old(x).left, ChannelsOf(s0, done), ChannelsOf(mid, {uaid}));
          done := done + {uaid};
          out := out + more;
          count := count + 1;
        }
      }
      AllStale(s0, cutoff, rows, ks);
      ExpireStep(s0, old(x), cutoff, s, out);
    }

    method CreateUserAgent(ua: UserAgent)
      requires Valid() && Shaped(Call.CreateUserAgent(ua)) && Suits(s, x.past, Call.CreateUserAgent(ua))
      modifies t, `s
      ensures Valid() && Step(old(s), Call.CreateUserAgent(ua), s, Done)
      ensures s.messages == old(s).messages && s.last == old(s).last
    {
      hide StoreSpec.Valid, Rep, Encode, Indexes, AgentCells, IsUaid, Mutated;
      AgentWritten(t.view, s, x, ua);
      AgentChanged(s, ua);
      t.Put(Encode(Ua(ua.uaid)), AgentCells(ua), Ua(ua.uaid));
      s := s.(userAgents := s.userAgents[ua.uaid := ua]);
    }

    method ReadUserAgent(uaid: string) returns (ua: Option<UserAgent>)
      requires Valid() && IsUaid(uaid)
      ensures ua == Lookup(s.userAgents, uaid)
    {
      hide StoreSpec.Valid, Rep, Encode, Indexes, AgentCells, AgentFromRow, IsUaid;
      AgentReads(t.view, s, x, uaid);
      var row := t.Get(Encode(Ua(uaid)), Ua(uaid));
      ua := if row.Some? then Some(AgentFromRow(uaid, row.value)) else None;
    }

    /** Unlike the in-memory store, this writes the time even when it goes backwards. */
    method TouchUserAgent(uaid: string, now: nat) returns (known: bool)
      requires Valid() && Shaped(Call.TouchUserAgent(uaid, now))
      modifies t, `s
      ensures Valid() && known == (uaid in s.userAgents) && s == Stamped(old(s), uaid, now)
      ensures s.messages == old(s).messages && s.last == old(s).last
      ensures Suits(old(s), x.past, Call.TouchUserAgent(uaid, now)) ==>
        Step(old(s), Call.TouchUserAgent(uaid, now), s, Flag(known))
    {
      hide StoreSpec.Valid, Rep, Encode, Indexes, AgentCells, AgentFromRow, IsUaid, Decimal, Mutated;
      AgentReads(t.view, s, x, uaid);
      TouchAgrees(s, uaid, now);
      if uaid in s.userAgents {
        SeenCell(s.userAgents[uaid]);
        SeenChanged(s.userAgents[uaid], now);
        AgentUpdated(t.view, s, x, uaid, map["seen" := Decimal(now)], s.userAgents[uaid].(lastSeen := now));
        AgentChanged(s, s.userAgents[uaid].(lastSeen := now));
      }
      var matched := t.MutateIf(Encode(Ua(uaid)), "seen", None, false, map["seen" := Decimal(now)], Ua(uaid));
      known := matched.value;
      s := Stamped(s, uaid, now);
    }

    method UpdateBridgeToken(uaid: string, token: string) returns (bridged: bool)
      requires Valid() && IsUaid(uaid)
      modifies t, `s
      ensures Valid() && Step(old(s), Call.UpdateBridgeToken(uaid, token), s, Flag(bridged))
      ensures s.messages == old(s).messages && s.last == old(s).last
    {
      hide StoreSpec.Valid, Rep, Encode, Indexes, AgentCells, AgentFromRow, IsUaid, Decimal, Mutated;
      AgentReads(t.view, s, x, uaid);
      if uaid in s.userAgents {
        SeenCell(s.userAgents[uaid]);
      }
      if IsBridged(s, uaid) {
        ghost var ua := s.userAgents[uaid].(bridge := Some(s.userAgents[uaid].bridge.value.(token := token)));
        TokenChanged(s.userAgents[uaid], token);
        AgentUpdated(t.view, s, x, uaid, map["token" := token], ua);
        AgentChanged(s, ua);
      }
      var matched := t.MutateIf(Encode(Ua(uaid)), "bridge", None, false, map["token" := token], Ua(uaid));
      bridged := matched.value;
      s := Retokened(s, uaid, token);
    }

    method Subscriptions(uaid: string) returns (list: seq<Subscription>)
      requires Valid() && IsUaid(uaid)
      ensures Step(s, Call.Subscriptions(uaid), s, Subs(list))
    {
      hide StoreSpec.Valid, Rep, Encode, Indexes, IsUaid, IsChannel, AfterLast, Below, SubFromRow, ListsSubscriptions;
      hide InRange;
      var rows, ks := t.Read(ScanStart(ScanChannels(uaid)), ScanEnd(ScanChannels(uaid)), ScanChannels(uaid));
      list := [];
      for i := 0 to |rows|
        invariant |list| == i
        invariant forall j :: 0 <= j < i ==> SubFromRow(uaid, ks[j].channelId, t.view[ks[j]]) == Some(list[j])
      {
        KeyTails(ks[i]);
        ScannedChannel(t.view, s, x, uaid, ks[i]);
        ChannelReads(t.view, s.channels, uaid, ks[i].channelId) by { RepRest(t.view, s, x); }
        var sub := SubFromRow(uaid, AfterLast(rows[i].0, '#'), rows[i].1);
        if sub.Some? {
          list := list + [sub.value];
        }
      }
      ChannelsListed(t.view, s, x, uaid, ks, list);
    }

    /** The channel row, then its push row. */
    method CreateSubscription(sub: Subscription)
      requires Valid() && GoodSub(sub) && Suits(s, x.past, Call.CreateSubscription(sub))
      modifies t, `s
      ensures Valid() && Step(old(s), Call.CreateSubscription(sub), s, Sub(Some(sub)))
      ensures s.messages == old(s).messages && s.last == old(s).last
    {
      hide StoreSpec.Valid, Rep, Encode, Indexes, ChannelCells, Mutated, IsId, IsUaid, IsChannel;
      ChannelWritten(t.view, s, x, sub);
      CreatedKeepsValid(s, sub);
      t.Put(Encode(Ch(sub.uaid, sub.channelId)), ChannelCells(sub), Ch(sub.uaid, sub.channelId));
      t.Put(Encode(Push(sub.push)), map["uaid" := sub.uaid, "ch" := sub.channelId], Push(sub.push));
      ghost var key := (sub.uaid, sub.channelId);
      s := s.(channels := s.channels[key := sub], push := s.push[sub.push := key]);
    }

    /** The channel row decides; a push row alone is an orphan. */
    method SubscriptionByPush(push: string) returns (sub: Option<Subscription>)
      requires Valid() && IsId(push)
      ensures Step(s, Call.SubscriptionByPush(push), s, Sub(sub))
    {
      hide StoreSpec.Valid, Rep, Encode, Indexes, IsId, IsUaid, IsChannel;
      PushReads(t.view, s, x, push);
      var row := t.Get(Encode(Push(push)), Push(push));
      if row.None? || "uaid" !in row.value || "ch" !in row.value {
        return None;
      }
      sub := ReadChannel(row.value["uaid"], row.value["ch"]);
      if sub.Some? && sub.value.push != push {
        sub := None;
      }
    }

    /** The message row is cleared and written in one step, then the id row, then the expiry row. */
    method InsertMessage(m: Message)
      requires Valid() && WellFormed(m) && Suits(s, x.past, Call.InsertMessage(m))
      modifies t, `s, `x
      ensures Valid() && TableStep(old(s), old(x), Call.InsertMessage(m), s, x, Done)
      ensures s.last == old(s).last && |s.messages| <= |old(s).messages| + 1
    {
      hide StoreSpec.Valid, Rep, MessageKey, Encode, Indexes, Mutated, Cells, Occupant, Inserted, WellFormed;
      hide TopicsAgree, Good;
      InsertReady(t.view, s, x, m);
      InsertedRows(t.view, s, x, m);
      InsertedKeepsValid(s, m);
      InsertedCount(s, m);
      OccupantLeft(t.view, s, x, m);
      ghost var occupant := Occupant(t.view, MessageKey(m));
      var key := Encode(MessageKey(m));
      t.Mutate(key, true, Cells(m), MessageKey(m));
      t.Mutate(Encode(Mid(m.id)), false, map["row" := key], Mid(m.id));
      if m.rsub.Some? {
        t.Put(Encode(Rexp(m.expiry, m.id)), map["row" := key], Rexp(m.expiry, m.id));
      }
      s := Inserted(s, m);
      x := x.(left := x.left - occupant, past := x.past.(used := x.past.used + {m.id}));
    }

    /** Every message row of the user agent is scanned, and only then are the oldest picked. */
    method Pending(uaid: string, now: nat, limit: nat) returns (batch: seq<Message>)
      requires Valid() && IsUaid(uaid)
      ensures TableStep(s, x, Call.Pending(uaid, now, limit), s, x, Messages(batch))
    {
      hide StoreSpec.Valid, Rep, Everything, Encode, Indexes, MessageKey, IsPending, OldestFirst, IsUaid;
      var keys, ms := MessagesIn(uaid);
      var out: seq<Message> := [];
      for i := 0 to |ms|
        invariant forall m :: m in out <==> m in ms[..i] && m.expiry > now
        invariant forall a, b :: 0 <= a < b < |out| ==> out[a].id != out[b].id
      {
        assert ms[..i + 1] == ms[..i] + [ms[i]];
        if ms[i].expiry > now {
          forall a | 0 <= a < |out| ensures out[a].id != ms[i].id {
            assert out[a] in out;
            var b :| 0 <= b < i && ms[..i][b] == out[a];
          }
          out := out + [ms[i]];
        }
      }
      assert ms[..|ms|] == ms;
      EverythingNamed(t.view, s, x);
      DueAmong(s, x, uaid, now, keys, ms);
      out := SortByAge(out);
      batch := if |out| > limit then out[..limit] else out;
      TruncatedIsPending(Everything(s, x), uaid, now, limit, out);
    }

    /** `locate`: through the id row to the message row, if that still holds the message. */
    method Locate(id: string) returns (r: Option<(string, Message)>)
      requires Valid() && IsId(id)
      ensures r.Some? <==> id in Everything(s, x)
      ensures r.Some? ==> StoredAt(s, x, r.value.0, r.value.1) && r.value.1.id == id
    {
      hide StoreSpec.Valid, Rep, Everything, Encode, Indexes, MessageKey, MessageFromRow, IsId, Points;
      if id in Everything(s, x) {
        IdPresent(t.view, s, x, id);
      }
      var idx := t.Get(Encode(Mid(id)), Mid(id));
      if idx.None? {
        return None;
      }
      ghost var k := IdReads(t.view, s, x, id);
      IndexTarget(t.view, s, x, idx.value, k);
      IndexNames(t.view, s, x, idx.value, k, id);
      if "row" !in idx.value {
        return None;
      }
      var row := t.Get(idx.value["row"], k);
      if row.None? {
        return None;
      }
      var m := MessageFromRow(idx.value["row"], row.value);
      r := if m.Some? && m.value.id == id then Some((idx.value["row"], m.value)) else None;
    }

    /** Only a message left behind by `reap` is found here and not in the in-memory store. */
    method ReadMessage(id: string) returns (m: Option<Message>)
      requires Valid() && IsId(id)
      ensures TableStep(s, x, Call.ReadMessage(id), s, x, Found(m))
    {
      hide StoreSpec.Valid, Rep, Encode, Indexes, MessageKey, IsId;
      var r := Locate(id);
      m := if r.Some? then Some(r.value.1) else None;
    }

    method DeleteMessage(id: string, owner: Option<ChannelKey>) returns (m: Option<Message>)
      requires Valid() && IsId(id)
      modifies t, `s, `x
      ensures Valid() && TableStep(old(s), old(x), Call.DeleteMessage(id, owner), s, x, Found(m))
      ensures s.last == old(s).last && |s.messages| <= |old(s).messages|
    {
      hide StoreSpec.Valid, Rep, Encode, Indexes, MessageKey, IsId, Everything, LeftBehind, TableStep, Without;
      RepLeft(t.view, s, x);
      DeleteStep(s, x, id, owner);
      var r := Locate(id);
      if r.None? {
        return None;
      }
      var (key, found) := r.value;
      if owner.Some? && (found.uaid != owner.value.0 || found.channelId != owner.value.1) {
        return None;
      }
      var removed := RemoveMessage(key, found);
      m := if removed then Some(found) else None;
    }

    method CreateReceiptSub(rsub: string)
      requires Valid() && IsId(rsub) && Suits(s, x.past, Call.CreateReceiptSub(rsub))
      modifies t, `s
      ensures Valid() && Step(old(s), Call.CreateReceiptSub(rsub), s, Done)
      ensures s.messages == old(s).messages && s.last == old(s).last
    {
      hide StoreSpec.Valid, Rep, Encode, Indexes, IsId, Mutated;
      QueueCreated(t.view, s, x, rsub);
      ReceiptDropped(s, rsub, 0);
      t.Put(Encode(Rsub(rsub)), map["c" := "1"], Rsub(rsub));
      s := s.(receipts := s.receipts[rsub := map[]]);
    }

    /** The subscription row first, so that no receipt is queued any more, then the queue. */
    method DeleteReceiptSub(rsub: string) returns (existed: bool)
      requires Valid() && IsId(rsub)
      modifies t, `s
      ensures Valid() && Step(old(s), Call.DeleteReceiptSub(rsub), s, Flag(existed))
      ensures s.messages == old(s).messages && s.last == old(s).last
    {
      hide StoreSpec.Valid, Rep, Encode, Indexes, IsId, Below, InRange, Trimmed;
      existed := ReceiptSubExists(rsub);
      if !existed {
        assert s.receipts - {rsub} == s.receipts;
        return;
      }
      NothingTrimmed(t.view, s, x, rsub);
      ghost var row, v0 := t.view[Rsub(rsub)], t.view;
      t.Delete(Encode(Rsub(rsub)), Rsub(rsub));
      var rows, ks := t.Read(ScanStart(ScanQueue(rsub)), ScanEnd(ScanQueue(rsub)), ScanQueue(rsub));
      ScannedQueue(v0, s, x, rsub, ks);
      ghost var done: set<nat> := {};
      for i := 0 to |rows|
        invariant t.Valid() && s == old(s) && last == old(last) && Rsub(rsub) !in t.view
        invariant Rep(t.view[Rsub(rsub) := row], Trimmed(s, rsub, done), x)
        invariant done == set j | 0 <= j < i :: ks[j].n
      {
        OneMoreTrimmed(t.view, row, s, x, rsub, done, ks[i].n);
        t.Delete(rows[i].0, ks[i]);
        done := done + {ks[i].n};
      }
      AllTrimmed(t.view, row, s, x, rsub, done);
      ReceiptDropped(s, rsub, 0);
      s := s.(receipts := s.receipts - {rsub});
    }

    method QueuedReceipts(rsub: string) returns (list: seq<Numbered>)
      requires Valid() && IsId(rsub)
      ensures Step(s, Call.QueuedReceipts(rsub), s, Reading(list))
    {
      hide StoreSpec.Valid, Rep, Encode, Indexes, IsId, Below, ReceiptFromRow, AfterLast, FromHex, Hex, IsReading;
      hide InRange;
      var rows, ks := t.Read(ScanStart(ScanQueue(rsub)), ScanEnd(ScanQueue(rsub)), ScanQueue(rsub));
      list := [];
      for i := 0 to |rows|
        invariant |list| == i
        invariant forall j :: 0 <= j < i ==>
          list[j].0 == ks[j].n && ReceiptFromRow(rsub, t.view[ks[j]]) == Some(list[j].1)
      {
        KeyTails(ks[i]);
        QueueReads(t.view, s, x, rsub, ks[i].n);
        var r := ReceiptFromRow(rsub, rows[i].1);
        if r.Some? {
          list := list + [(FromHex(AfterLast(rows[i].0, '#')), r.value)];
        }
      }
      QueueListed(t.view, s, x, rsub, ks, list);
    }

    method DeleteReceipt(rsub: string, n: nat)
      requires Valid() && IsId(rsub) && n < U64
      modifies t, `s
      ensures Valid() && Step(old(s), Call.DeleteReceipt(rsub, n), s, Done)
      ensures s.messages == old(s).messages && s.last == old(s).last
    {
      hide StoreSpec.Valid, Rep, Encode, Indexes, IsId;
      RepReceiptGone(t.view, s, x, rsub, n);
      ReceiptDropped(s, rsub, n);
      t.Delete(Encode(Rq(rsub, n)), Rq(rsub, n));
      s := if rsub in s.receipts then s.(receipts := s.receipts[rsub := s.receipts[rsub] - {n}]) else s;
    }

    method SetRoute(to: Recipient, node: string) returns (previous: Option<string>)
      requires Valid() && IsRecipient(to)
      modifies t, `s
      ensures Valid() && Step(old(s), Call.SetRoute(to, node), s, Node(previous))
      ensures s.messages == old(s).messages && s.last == old(s).last
    {
      hide StoreSpec.Valid, Rep, Encode, Indexes, IsRecipient, Mutated;
      previous := ReadRoute(to);
      RouteWritten(t.view, s, x, to, node);
      RoutesKeepValid(s, s.routes[to := node]);
      t.Put(Encode(Route(to)), map["node" := node], Route(to));
      s := s.(routes := s.routes[to := node]);
    }

    method ReadRoute(to: Recipient) returns (node: Option<string>)
      requires Valid() && IsRecipient(to)
      ensures Step(s, Call.ReadRoute(to), s, Node(node))
    {
      hide StoreSpec.Valid, Rep, Encode, Indexes, IsRecipient;
      RouteReads(t.view, s, x, to);
      var row := t.Get(Encode(Route(to)), Route(to));
      node := if row.Some? then TextCell(row.value, "node") else None;
    }

    /** The route row is deleted only if it names `node`, in one step. A node that is not ASCII fails the call. */
    method ClearRoute(to: Recipient, node: string) returns (cleared: Option<bool>)
      requires Valid() && IsRecipient(to)
      modifies t, `s
      ensures Valid() && (cleared.Some? <==> Ascii(node)) && (cleared.None? ==> s == old(s))
      ensures cleared.Some? ==> Step(old(s), Call.ClearRoute(to, node), s, Flag(cleared.value))
      ensures s.messages == old(s).messages && s.last == old(s).last
    {
      hide StoreSpec.Valid, Rep, Encode, Indexes, IsRecipient, Mutated, Ascii;
      RouteReads(t.view, s, x, to);
      RepRouteGone(t.view, s, x, to);
      RoutesKeepValid(s, s.routes - {to});
      ClearedRow(t.view, Route(to));
      cleared := t.MutateIf(Encode(Route(to)), "node", Some(node), true, map[], Route(to));
      if cleared == Some(true) {
        s := s.(routes := s.routes - {to});
      }
    }

    /** One due expiry row: its message goes if the row it names still holds that message, then the row itself goes. */
    method ReapRow(idx: string, row: Row, ghost k: Key) returns (out: seq<Numbered>)
      requires Valid() && Load(s) + 1 < CLOCK_END
      requires k.Rexp? && Good(k) && idx == Encode(k) && NamesDue(s, x, row, k.id)
      modifies t, `s, `x, `last
      ensures Valid() && Load(s) <= Load(old(s)) && x == old(x)
      ensures Purged(old(s), {k.id} * old(s).messages.Keys, s, out)
      ensures Everything(s, x) == Everything(old(s), old(x)) - {k.id}
    {
      hide StoreSpec.Valid, Rep, Everything, Encode, Indexes, MessageKey, MessageFromRow, Points, Purged, Good;
      hide AfterLast, LeftBehind;
      KeyTails(k);
      var id := AfterLast(idx, '#');
      RepLeft(t.view, s, x);
      OnlyClaimed(s, x, row, id);
      ghost var target: Key :| target.Msg? && Good(target) && Points(row, target);
      IndexTarget(t.view, s, x, row, target);
      IndexNames(t.view, s, x, row, target, id);
      out := [];
      ghost var found := false;
      if "row" in row {
        var mrow := t.Get(row["row"], target);
        if mrow.Some? {
          var m := MessageFromRow(row["row"], mrow.value);
          if m.Some? && m.value.id == id {
            found := true;
            out := PurgeOne(row["row"], m.value);
          }
        }
      }
      if !found {
        NothingPurged(s, x, id);
      }
      AbsentNow(t.view, s, x, k);
      t.Delete(idx, k);
    }

    /** The receipt-less expired messages are left to garbage collection; nothing else differs. */
    method Reap(now: nat) returns (out: seq<Numbered>)
      requires Valid() && now + 1 < U64 && Load(s) + 1 < CLOCK_END
      modifies t, `s, `x, `last
      ensures Valid() && TableStep(old(s), old(x), Call.Reap(now), s, x, Owed(out))
      ensures Load(s) <= Load(old(s))
    {
      hide StoreSpec.Valid, Rep, Everything, Encode, Indexes, Purged, Good, NamesDue, Reaping, Expired, Unclaimed;
      hide Below, Hex, InRange, Load, Noted, Without, TableStep, LeaveBehind;
      ghost var s0, x0 := s, x;
      var rows, ks := t.Read("rexp#", "rexp#" + Hex(now + 1, 16), ScanDue(now));
      ScannedDue(t.view, s, x, now, rows, ks);
      out := [];
      ghost var gone := {};
      ReapStart(s0, now, ks);
      for i := 0 to |rows|
        invariant Valid() && x == x0 && Load(s) <= Load(s0)
        invariant Reaping(s0, now, ks, i, gone, s, out)
        invariant forall id :: id in Everything(s, x) ==>
                  id in Everything(s0, x0) && Everything(s, x)[id] == Everything(s0, x0)[id]
      {
        StillNames(s0, x0, s, x, rows[i].1, ks[i].id);
        ghost var mid := s;
        var more := ReapRow(rows[i].0, rows[i].1, ks[i]);
        ReapStep(s0, now, ks, i, gone, mid, out, s, more);
        gone := gone + ({ks[i].id} * mid.messages.Keys);
        out := out + more;
      }
      ReapEnds(t.view, s0, x0, now, rows, ks, gone, s, out);
      s, x := Without(s, Unclaimed(s, now)), LeaveBehind(s0, s, x, now);
    }

    // -- Whole runs ---------------------------------------------------------

    /** Any one call that only reads. */
    method Query(c: Call) returns (a: Answer)
      requires Valid() && Shaped(c) && Queries(c)
      ensures Step(s, c, s, a)
    {
      hide StoreSpec.Valid, Rep, Indexes, IsReading, ListsSubscriptions, Everything, IsId, IsUaid, IsChannel;
      hide IsRecipient;
      match c {
        case ReadUserAgent(uaid) => var ua := ReadUserAgent(uaid); a := Agent(ua);
        case Subscriptions(uaid) => var list := Subscriptions(uaid); a := Subs(list);
        case ReadChannel(uaid, ch) => var sub := ReadChannel(uaid, ch); a := Sub(sub);
        case SubscriptionByPush(id) => var sub := SubscriptionByPush(id); a := Sub(sub);
        case ReceiptSubExists(rsub) => var yes := ReceiptSubExists(rsub); a := Flag(yes);
        case QueuedReceipts(rsub) => var list := QueuedReceipts(rsub); a := Reading(list);
        case ReadRoute(to) => var node := ReadRoute(to); a := Node(node);
      }
    }

    /** Any one call. */
    method Execute(c: Call) returns (a: Answer)
      requires Valid() && Shaped(c) && Suits(s, x.past, c) && Load(s) + 1 < CLOCK_END
      modifies t, `s, `x, `last
      ensures Valid() && TableStep(old(s), old(x), c, s, x, a)
      ensures Load(s) <= Load(old(s)) + 1
    {
      hide StoreSpec.Valid, Rep, Indexes, Dropped, Purged, IsPending, IsReading, ListsSubscriptions, Everything;
      hide WellFormed, GoodSub, IsId, IsUaid, IsChannel, IsRecipient, Inserted, Stamped, Touched, Retokened, Deleted;
      hide Deletable, Unclaimed, ChannelsOf, Stale, Expired;
      if Queries(c) {
        a := Query(c);
        return;
      }
      match c {
        case CreateUserAgent(ua) => CreateUserAgent(ua); a := Done;
        case TouchUserAgent(uaid, now) => var known := TouchUserAgent(uaid, now); a := Flag(known);
        case UpdateBridgeToken(uaid, token) => var bridged := UpdateBridgeToken(uaid, token); a := Flag(bridged);
        case DeleteUserAgent(uaid) => var queued := DeleteUserAgent(uaid); a := Owed(queued);
        case ExpireUserAgents(cutoff) => var count, queued := ExpireUserAgents(cutoff); a := Swept(count, queued);
        case CreateSubscription(sub) => CreateSubscription(sub); a := Sub(Some(sub));
        case DeleteSubscription(uaid, ch) => var queued := DeleteSubscription(uaid, ch); a := Owed(queued);
        case InsertMessage(m) => InsertMessage(m); a := Done;
        case Pending(uaid, now, limit) => var batch := Pending(uaid, now, limit); a := Messages(batch);
        case ReadMessage(id) => var m := ReadMessage(id); a := Found(m);
        case DeleteMessage(id, owner) => var m := DeleteMessage(id, owner); a := Found(m);
        case CreateReceiptSub(rsub) => CreateReceiptSub(rsub); a := Done;
        case DeleteReceiptSub(rsub) => var existed := DeleteReceiptSub(rsub); a := Flag(existed);
        case EnqueueReceipt(r) => var n := EnqueueReceipt(r); a := Number(n);
        case DeleteReceipt(rsub, n) => DeleteReceipt(rsub, n); a := Done;
        case Reap(now) => var queued := Reap(now); a := Owed(queued);
        case SetRoute(to, node) => var previous := SetRoute(to, node); a := Node(previous);
        case ClearRoute(to, node) => var cleared := ClearRoute(to, node); a := Flag(cleared.value);
      }
    }

    /** A sequence of whole calls. */
    method Replay(calls: seq<Call>) returns (answers: seq<Answer>, ghost trace: seq<Contents>)
      requires Valid() && AllSuit(s, x, calls) && Load(s) + |calls| < CLOCK_END
      modifies t, `s, `x, `last
      ensures Valid() && IsTableTrace(calls, answers, trace)
      ensures trace[0] == Contents(old(s), old(x)) && trace[|calls|] == Contents(s, x)
      ensures forall i :: 0 <= i <= |calls| ==> TableSpec.Sound(trace[i])
    {
      hide StoreSpec.Valid, Rep, Indexes, TableStep, Shaped, Suits, Load, LeftBehind;
      RepLeft(t.view, s, x);
      answers, trace := [], [Contents(s, x)];
      assert calls[0..] == calls;
      for i := 0 to |calls|
        invariant Valid() && AllSuit(s, x, calls[i..]) && Load(s) <= Load(old(s)) + i
        invariant IsTableTrace(calls[..i], answers, trace)
        invariant trace[0] == Contents(old(s), old(x)) && trace[i] == Contents(s, x)
        invariant forall j :: 0 <= j <= i ==> TableSpec.Sound(trace[j])
      {
        assert calls[i..][0] == calls[i] && calls[i..][1..] == calls[i + 1..];
        var a := Execute(calls[i]);
        RepLeft(t.view, s, x);
        TableTraceExtends(calls, answers, trace, i, Contents(s, x), a);
        answers, trace := answers + [a], trace + [Contents(s, x)];
      }
      assert calls[..|calls|] == calls;
    }
  }
}
