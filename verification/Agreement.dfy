/**
 The two stores answer alike on every sequence of calls, although they number receipts
 differently and may walk their maps in a different order. The one thing the table shows that the
 maps do not is a message the reaper left behind: expired, reaped, and with nobody waiting for a
 receipt. With the contracts of the two stores this makes the table of rows refine the maps.
 */
module Agreement {
  import opened Prelude
  import opened Types
  import opened StoreSpec
  import MemoryStore
  import Bigtable
  import opened TableSpec
  import Layout
  import Tables

  // -- Receipts without their numbers ---------------------------------------

  /** The receipts of a queue, whatever their numbers. */
  ghost function Pile(q: Queue): multiset<Receipt>
    decreases |q|
  {
    if q == map[] then multiset{}
    else
      var n :| n in q;
      Pile(q - {n}) + multiset{q[n]}
  }

  lemma PileStep(q: Queue) returns (k: nat)
    requires q != map[]
    ensures k in q && Pile(q) == Pile(q - {k}) + multiset{q[k]}
  {
    k :| k in q && Pile(q) == Pile(q - {k}) + multiset{q[k]};
  }

  /** Any receipt may be taken off the pile first. */
  lemma {:induction false} PileTaken(q: Queue, n: nat)
    requires n in q
    ensures Pile(q) == Pile(q - {n}) + multiset{q[n]}
    decreases |q|
  {
    hide Pile;
    var k := PileStep(q);
    if k != n {
      PileTaken(q - {k}, n);
      PileTaken(q - {n}, k);
      assert q - {k} - {n} == q - {n} - {k};
    }
  }

  lemma PilePut(q: Queue, n: nat, r: Receipt)
    requires n !in q
    ensures Pile(q[n := r]) == Pile(q) + multiset{r}
  {
    hide Pile;
    PileTaken(q[n := r], n);
    assert q[n := r] - {n} == q;
  }

  /** The receipts of `out` for one subscription. */
  ghost function For(out: seq<Numbered>, rsub: string): multiset<Receipt> {
    if |out| == 0 then multiset{}
    else
      var r := out[|out| - 1].1;
      For(out[..|out| - 1], rsub) + (if r.rsub == rsub then multiset{r} else multiset{})
  }

  ghost predicate Owing(out: seq<Numbered>, r: Receipt) {
    exists i :: 0 <= i < |out| && out[i].1 == r
  }

  /** Receipts for different messages are counted once each. */
  lemma {:induction false} ForCounts(out: seq<Numbered>, rsub: string, r: Receipt)
    requires forall i, j :: 0 <= i < j < |out| ==> out[i].1.msgId != out[j].1.msgId
    ensures For(out, rsub)[r] == if Owing(out, r) && r.rsub == rsub then 1 else 0
    decreases |out|
  {
    if |out| > 0 {
      var front, last := out[..|out| - 1], out[|out| - 1].1;
      ForCounts(front, rsub, r);
      assert Owing(out, r) <==> Owing(front, r) || r == last by {
        if r == last {
          assert out[|out| - 1].1 == r;
        }
        if Owing(front, r) {
          var i :| 0 <= i < |front| && front[i].1 == r;
          assert out[i].1 == r;
        }
      }
    }
  }

  lemma {:induction false} QueueAllNumbers(q: map<string, Queue>, last: nat, out: seq<Numbered>, rsub: string)
    requires rsub in q && Ascending(last, out)
    requires forall n :: n in q[rsub] ==> n <= last
    ensures rsub in QueueAll(q, out)
    ensures forall n :: n in QueueAll(q, out)[rsub] ==> n <= LastOf(last, out)
    decreases |out|
  {
    if |out| > 0 {
      var front := out[..|out| - 1];
      QueueAllNumbers(q, last, front, rsub);
      assert LastOf(last, front) < out[|out| - 1].0;
    }
  }

  /** A queue after receipts with unused numbers are added. */
  lemma {:induction false} QueueAllPiles(q: map<string, Queue>, last: nat, out: seq<Numbered>, rsub: string)
    requires rsub in q && Ascending(last, out)
    requires forall n :: n in q[rsub] ==> n <= last
    ensures rsub in QueueAll(q, out)
    ensures Pile(QueueAll(q, out)[rsub]) == Pile(q[rsub]) + For(out, rsub)
    decreases |out|
  {
    hide Pile;
    if |out| > 0 {
      var front := out[..|out| - 1];
      var (n, r) := out[|out| - 1];
      QueueAllPiles(q, last, front, rsub);
      QueueAllNumbers(q, last, front, rsub);
      assert LastOf(last, front) < n;
      hide Ascending, LastOf;
      var before := QueueAll(q, front);
      if r.rsub == rsub {
        PilePut(before[rsub], n, r);
        assert QueueAll(q, out)[rsub] == before[rsub][n := r];
      } else {
        assert QueueAll(q, out)[rsub] == before[rsub];
        assert For(out, rsub) == For(front, rsub);
      }
    }
  }

  // -- States that differ only in the numbers -------------------------------

  ghost predicate SamePiles(p: map<string, Queue>, q: map<string, Queue>) {
    p.Keys == q.Keys && forall rsub :: rsub in p ==> Pile(p[rsub]) == Pile(q[rsub])
  }

  ghost predicate Alike(s: State, t: State) {
    s == t.(receipts := s.receipts, last := s.last) && SamePiles(s.receipts, t.receipts)
  }

  /** The same call; the receipt to delete may go by different numbers. */
  ghost predicate CallsMatch(s: State, c: Call, t: State, d: Call) {
    if c.DeleteReceipt? then
      d.DeleteReceipt? && c.rsub == d.rsub
      && (c.rsub in s.receipts && d.rsub in t.receipts ==>
            Lookup(s.receipts[c.rsub], c.n) == Lookup(t.receipts[d.rsub], d.n))
    else c == d
  }

  ghost predicate SameReceipts(a: seq<Numbered>, b: seq<Numbered>) {
    forall rsub :: For(a, rsub) == For(b, rsub)
  }

  /** The same answer, up to the numbers of receipts and the order of sets. */
  ghost predicate AnswersMatch(a: Answer, b: Answer) {
    if a.Subs? && b.Subs? then forall sub :: sub in a.list <==> sub in b.list
    else if a.Owed? && b.Owed? then SameReceipts(a.queued, b.queued)
    else if a.Swept? && b.Swept? then a.count == b.count && SameReceipts(a.queued, b.queued)
    else if a.Number? && b.Number? then a.n.Some? == b.n.Some?
    else if a.Reading? && b.Reading? then SameReceipts(a.receipts, b.receipts)
    else a == b
  }

  lemma OwedAgree(s: State, t: State, gone: set<string>, a: seq<Numbered>, b: seq<Numbered>, rsub: string)
    requires OwedFor(s, gone, a) && OwedFor(t, gone, b)
    requires s.messages == t.messages && s.receipts.Keys == t.receipts.Keys
    ensures For(a, rsub) == For(b, rsub)
  {
    forall r ensures For(a, rsub)[r] == For(b, rsub)[r] {
      ForCounts(a, rsub, r);
      ForCounts(b, rsub, r);
      OwedWithin(s, t, gone, a, b, r);
      OwedWithin(t, s, gone, b, a, r);
    }
  }

  lemma OwedWithin(s: State, t: State, gone: set<string>, a: seq<Numbered>, b: seq<Numbered>, r: Receipt)
    requires OwedFor(s, gone, a) && OwedFor(t, gone, b)
    requires s.messages == t.messages && s.receipts.Keys == t.receipts.Keys
    ensures Owing(a, r) ==> Owing(b, r)
  {
    if Owing(a, r) {
      var i :| 0 <= i < |a| && a[i].1 == r;
      assert Receipted(b, r.msgId);
      var j :| 0 <= j < |b| && b[j].1.msgId == r.msgId;
      assert b[j].1 == r;
    }
  }

  lemma PurgedAgree(s: State, t: State, gone: set<string>, s': State, a: seq<Numbered>, t': State, b: seq<Numbered>)
    requires Alike(s, t) && QueuesAgree(s) && QueuesAgree(t)
    requires Purged(s, gone, s', a) && Purged(t, gone, t', b)
    ensures Alike(s', t') && SameReceipts(a, b)
  {
    hide OwedFor, Pile, For, QueueAll;
    forall rsub ensures For(a, rsub) == For(b, rsub) {
      OwedAgree(s, t, gone, a, b, rsub);
    }
    QueueAllKeys(s.receipts, a);
    QueueAllKeys(t.receipts, b);
    forall rsub | rsub in s.receipts ensures Pile(s'.receipts[rsub]) == Pile(t'.receipts[rsub]) {
      QueueAllPiles(s.receipts, s.last, a, rsub);
      QueueAllPiles(t.receipts, t.last, b, rsub);
    }
  }

  lemma DroppedAgree(
    s: State, t: State, agents: set<string>, chans: set<ChannelKey>,
    s': State, a: seq<Numbered>, t': State, b: seq<Numbered>)
    requires Alike(s, t) && QueuesAgree(s) && QueuesAgree(t)
    requires Dropped(s, agents, chans, s', a) && Dropped(t, agents, chans, t', b)
    ensures Alike(s', t') && SameReceipts(a, b)
  {
    hide Purged, Pile, SameReceipts;
    assert MessagesOf(s, chans) == MessagesOf(t, chans);
    PurgedAgree(WithoutOwners(s, agents, chans), WithoutOwners(t, agents, chans), MessagesOf(s, chans), s', a, t', b);
  }

  /** A reading is the whole queue. */
  lemma {:induction false} ReadingPile(q: Queue, rsub: string, out: seq<Numbered>)
    requires IsReading(q, out) && forall n :: n in q ==> q[n].rsub == rsub
    ensures For(out, rsub) == Pile(q)
    ensures forall other :: other != rsub ==> For(out, other) == multiset{}
    decreases |out|
  {
    if |out| == 0 {
      EmptyReading(q);
    } else {
      var front := out[..|out| - 1];
      var (n, r) := out[|out| - 1];
      assert (n, r) in out;
      assert IsReading(q - {n}, front) by {
        ReadingFront(q, out);
      }
      ReadingPile(q - {n}, rsub, front);
      PileTaken(q, n);
    }
  }

  lemma EmptyReading(q: Queue)
    requires IsReading(q, [])
    ensures Pile(q) == multiset{}
  {
    var none: seq<Numbered> := [];
    forall n, r ensures (n, r) !in q.Items {
      assert (n, r) !in none;
    }
    assert q.Keys == {};
  }

  lemma ReadingFront(q: Queue, out: seq<Numbered>)
    requires IsReading(q, out) && |out| > 0
    ensures IsReading(q - {out[|out| - 1].0}, out[..|out| - 1])
  {
    var front, last := out[..|out| - 1], out[|out| - 1];
    var rest := q - {last.0};
    assert out == front + [last];
    forall n, r ensures (n, r) in front <==> n in rest && rest[n] == r {
      assert (n, r) in out <==> (n, r) in front || (n, r) == last;
      if (n, r) in front {
        var i :| 0 <= i < |front| && front[i] == (n, r);
        assert out[i].0 < last.0;
      }
    }
  }

  // -- One call -------------------------------------------------------------

  lemma QueuesKnown(s: State)
    requires Valid(s)
    ensures QueuesAgree(s)
  {
  }

  /** The two states agree but for the queues and the sequence counter. */
  predicate SameRest(s: State, t: State) {
    s.userAgents == t.userAgents && s.channels == t.channels && s.push == t.push && s.messages == t.messages
    && s.topics == t.topics && s.routes == t.routes
  }

  lemma AlikeFields(s: State, t: State)
    requires Alike(s, t)
    ensures SameRest(s, t) && s.receipts.Keys == t.receipts.Keys
  {
    hide Pile;
  }

  /** What a sweep removes does not depend on receipts. */
  lemma SweptAlike(s: State, t: State, c: Call)
    requires s.userAgents == t.userAgents && s.channels == t.channels && s.messages == t.messages
    ensures forall agents :: ChannelsOf(s, agents) == ChannelsOf(t, agents)
    ensures c.ExpireUserAgents? ==> Stale(s, c.cutoff) == Stale(t, c.cutoff)
    ensures c.Reap? ==> Expired(s, c.now) == Expired(t, c.now)
  {
  }

  lemma SweepAgrees(s: State, c: Call, s': State, a: Answer, t: State, t': State, b: Answer)
    requires Alike(s, t) && Valid(s) && Valid(t) && Sweeps(c) && Step(s, c, s', a) && Step(t, c, t', b)
    ensures Alike(s', t') && AnswersMatch(a, b)
  {
    hide Pile, Purged, Dropped, SameReceipts, Alike, Valid, ChannelsOf, Stale, Expired;
    AlikeFields(s, t);
    QueuesKnown(s);
    QueuesKnown(t);
    SweptAlike(s, t, c);
    match c {
      case DeleteUserAgent(uaid) =>
        DroppedAgree(s, t, {uaid}, ChannelsOf(s, {uaid}), s', a.queued, t', b.queued);
      case ExpireUserAgents(cutoff) =>
        DroppedAgree(s, t, Stale(s, cutoff), ChannelsOf(s, Stale(s, cutoff)), s', a.queued, t', b.queued);
      case DeleteSubscription(uaid, ch) =>
        DroppedAgree(s, t, {}, {(uaid, ch)} * s.channels.Keys, s', a.queued, t', b.queued);
      case Reap(now) =>
        PurgedAgree(s, t, Expired(s, now), s', a.queued, t', b.queued);
    }
  }

  /** One more receipt, under any unused number. */
  lemma EnqueuesAgree(s: State, t: State, n: nat, k: nat, r: Receipt)
    requires Alike(s, t) && Valid(s) && Valid(t) && r.rsub in s.receipts && n > s.last && k > t.last
    ensures Alike(Enqueued(s, n, r), Enqueued(t, k, r))
  {
    hide Pile;
    PilePut(s.receipts[r.rsub], n, r);
    PilePut(t.receipts[r.rsub], k, r);
  }

  /** One receipt less, by whatever number it goes. */
  lemma DeletesAgree(s: State, t: State, rsub: string, n: nat, k: nat)
    requires Alike(s, t) && rsub in s.receipts && Lookup(s.receipts[rsub], n) == Lookup(t.receipts[rsub], k)
    ensures Alike(s.(receipts := s.receipts[rsub := s.receipts[rsub] - {n}]),
                  t.(receipts := t.receipts[rsub := t.receipts[rsub] - {k}]))
  {
    hide Pile;
    OneLess(s.receipts[rsub], n, t.receipts[rsub], k);
  }

  lemma ReadingsAgree(s: State, t: State, rsub: string, a: seq<Numbered>, b: seq<Numbered>)
    requires Alike(s, t) && Valid(s) && Valid(t)
    requires IsReading(if rsub in s.receipts then s.receipts[rsub] else map[], a)
    requires IsReading(if rsub in t.receipts then t.receipts[rsub] else map[], b)
    ensures SameReceipts(a, b)
  {
    hide Pile, IsReading, For;
    var p: Queue := if rsub in s.receipts then s.receipts[rsub] else map[];
    var q: Queue := if rsub in t.receipts then t.receipts[rsub] else map[];
    ReadingPile(p, rsub, a);
    ReadingPile(q, rsub, b);
  }

  lemma OneLess(p: Queue, n: nat, q: Queue, k: nat)
    requires Pile(p) == Pile(q) && Lookup(p, n) == Lookup(q, k)
    ensures Pile(p - {n}) == Pile(q - {k})
  {
    hide Pile;
    if n in p {
      PileTaken(p, n);
      PileTaken(q, k);
      assert Pile(p - {n}) == Pile(p) - multiset{p[n]};
      assert Pile(q - {k}) == Pile(q) - multiset{q[k]};
    } else {
      assert p - {n} == p && q - {k} == q;
    }
  }

  /** Receipt subscriptions come with an empty queue and go with whatever it holds. */
  lemma SubscriptionsAgree(s: State, t: State, rsub: string)
    requires Alike(s, t)
    ensures Alike(s.(receipts := s.receipts[rsub := map[]]), t.(receipts := t.receipts[rsub := map[]]))
    ensures Alike(s.(receipts := s.receipts - {rsub}), t.(receipts := t.receipts - {rsub}))
  {
    hide Pile;
  }

  predicate OnlyReads(c: Call) {
    c.ReadUserAgent? || c.Subscriptions? || c.ReadChannel? || c.SubscriptionByPush? || c.ReadMessage?
    || c.ReceiptSubExists? || c.ReadRoute?
  }

  lemma ReadsAgree(s: State, c: Call, s': State, a: Answer, t: State, t': State, b: Answer)
    requires Alike(s, t) && OnlyReads(c) && Step(s, c, s', a) && Step(t, c, t', b)
    ensures Alike(s', t') && AnswersMatch(a, b)
  {
    hide Alike, Step, AnswersMatch;
    AlikeFields(s, t);
    ReadsChangeNothing(s, c, s', a);
    ReadsChangeNothing(t, c, t', b);
    ReadAnswersMatch(s, c, s', a, t, t', b);
  }

  lemma ReadsChangeNothing(s: State, c: Call, s': State, a: Answer)
    requires OnlyReads(c) && Step(s, c, s', a)
    ensures s' == s
  {
  }

  lemma ReadAnswersMatch(s: State, c: Call, s': State, a: Answer, t: State, t': State, b: Answer)
    requires OnlyReads(c) && Step(s, c, s', a) && Step(t, c, t', b)
    requires s.userAgents == t.userAgents && s.channels == t.channels && s.push == t.push && s.messages == t.messages
    requires s.routes == t.routes && s.receipts.Keys == t.receipts.Keys
    ensures AnswersMatch(a, b)
  {
    hide AnswersMatch, Step;
    if c.Subscriptions? {
      ListsMatch(s, c.uaid, s', a, t, t', b);
    } else {
      ReadAnswersEqual(s, c, s', a, t, t', b);
      MatchesItself(a);
    }
  }

  lemma MatchesItself(a: Answer)
    ensures AnswersMatch(a, a)
  {
    hide For;
  }

  lemma ReadAnswersEqual(s: State, c: Call, s': State, a: Answer, t: State, t': State, b: Answer)
    requires OnlyReads(c) && !c.Subscriptions? && Step(s, c, s', a) && Step(t, c, t', b)
    requires s.userAgents == t.userAgents && s.channels == t.channels && s.push == t.push && s.messages == t.messages
    requires s.routes == t.routes && s.receipts.Keys == t.receipts.Keys
    ensures a == b
  {
  }

  lemma ListsMatch(s: State, uaid: string, s': State, a: Answer, t: State, t': State, b: Answer)
    requires Step(s, Subscriptions(uaid), s', a) && Step(t, Subscriptions(uaid), t', b) && s.channels == t.channels
    ensures AnswersMatch(a, b)
  {
  }

  /** Calls that leave the queues alone. */
  predicate Plain(c: Call) {
    !Sweeps(c) && !OnQueues(c) && !c.Pending? && !OnlyReads(c)
  }

  lemma PlainAgrees(s: State, c: Call, s': State, a: Answer, t: State, t': State, b: Answer)
    requires Alike(s, t) && Plain(c) && Step(s, c, s', a) && Step(t, c, t', b)
    ensures Alike(s', t') && AnswersMatch(a, b)
  {
    hide Step, AnswersMatch, Alike, SameRest;
    AlikeFields(s, t);
    PlainKeepsQueues(s, c, s', a);
    PlainKeepsQueues(t, c, t', b);
    PlainRest(s, c, s', a, t, t', b);
    RestAlike(s, t, s', t');
    MatchesItself(a);
  }

  lemma RestAlike(s: State, t: State, s': State, t': State)
    requires Alike(s, t) && SameRest(s', t') && s'.receipts == s.receipts && t'.receipts == t.receipts
    ensures Alike(s', t')
  {
    hide SamePiles;
  }

  lemma PlainKeepsQueues(s: State, c: Call, s': State, a: Answer)
    requires Plain(c) && Step(s, c, s', a)
    ensures s'.receipts == s.receipts && s'.last == s.last
  {
  }

  lemma PlainRest(s: State, c: Call, s': State, a: Answer, t: State, t': State, b: Answer)
    requires Plain(c) && Step(s, c, s', a) && Step(t, c, t', b) && SameRest(s, t)
    ensures SameRest(s', t') && a == b
  {
  }

  /** Two stores in like states answer matching calls alike and stay alike. */
  lemma StepsAgree(s: State, c: Call, s': State, a: Answer, t: State, d: Call, t': State, b: Answer)
    requires Alike(s, t) && Valid(s) && Valid(t) && CallsMatch(s, c, t, d)
    requires Step(s, c, s', a) && Step(t, d, t', b)
    ensures Alike(s', t') && AnswersMatch(a, b)
  {
    hide Alike, Purged, Dropped, IsReading, IsPending, Valid, SameReceipts, Touched, Retokened, Inserted, Deleted;
    hide Deletable;
    if OnQueues(c) {
      QueueCallsAgree(s, c, s', a, t, d, t', b);
    } else {
      assert c == d;
      hide AnswersMatch, Step;
      if Sweeps(c) {
        SweepAgrees(s, c, s', a, t, t', b);
      } else if c.Pending? {
        BacklogsAgree(s, c, s', a, t, t', b);
      } else if OnlyReads(c) {
        ReadsAgree(s, c, s', a, t, t', b);
      } else {
        PlainAgrees(s, c, s', a, t, t', b);
      }
    }
  }

  lemma BacklogsAgree(s: State, c: Call, s': State, a: Answer, t: State, t': State, b: Answer)
    requires Alike(s, t) && c.Pending? && Step(s, c, s', a) && Step(t, c, t', b)
    ensures Alike(s', t') && AnswersMatch(a, b)
  {
    hide Alike, IsPending;
    AlikeFields(s, t);
    PendingUnique(s.messages, c.uaid, c.now, c.limit, a.batch, b.batch);
  }

  predicate OnQueues(c: Call) {
    c.EnqueueReceipt? || c.DeleteReceipt? || c.QueuedReceipts? || c.CreateReceiptSub? || c.DeleteReceiptSub?
  }

  lemma QueueCallsAgree(s: State, c: Call, s': State, a: Answer, t: State, d: Call, t': State, b: Answer)
    requires Alike(s, t) && Valid(s) && Valid(t) && CallsMatch(s, c, t, d) && OnQueues(c)
    requires Step(s, c, s', a) && Step(t, d, t', b)
    ensures Alike(s', t') && AnswersMatch(a, b)
  {
    hide Alike, Valid, AnswersMatch, Step;
    match c {
      case EnqueueReceipt(r) => EnqueueCallsAgree(s, r, s', a, t, t', b);
      case DeleteReceipt(rsub, n) => DeleteCallsAgree(s, rsub, n, s', a, t, d.n, t', b);
      case QueuedReceipts(rsub) => ReadCallsAgree(s, rsub, s', a, t, t', b);
      case _ => SubCallsAgree(s, c, s', a, t, t', b);
    }
  }

  lemma EnqueueOutcome(s: State, r: Receipt, s': State, a: Answer)
    requires Step(s, EnqueueReceipt(r), s', a)
    ensures a.Number?
    ensures if r.rsub in s.receipts then a.n.Some? && a.n.value > s.last && s' == Enqueued(s, a.n.value, r)
            else a.n.None? && s' == s
  {
  }

  lemma EnqueueCallsAgree(s: State, r: Receipt, s': State, a: Answer, t: State, t': State, b: Answer)
    requires Alike(s, t) && Valid(s) && Valid(t)
    requires Step(s, EnqueueReceipt(r), s', a) && Step(t, EnqueueReceipt(r), t', b)
    ensures Alike(s', t') && AnswersMatch(a, b)
  {
    hide Alike, Valid, Enqueued, SameReceipts, Step;
    AlikeFields(s, t);
    EnqueueOutcome(s, r, s', a);
    EnqueueOutcome(t, r, t', b);
    if r.rsub in s.receipts {
      EnqueuesAgree(s, t, a.n.value, b.n.value, r);
    }
  }

  lemma DeleteCallsAgree(s: State, rsub: string, n: nat, s': State, a: Answer, t: State, k: nat, t': State, b: Answer)
    requires Alike(s, t) && CallsMatch(s, DeleteReceipt(rsub, n), t, DeleteReceipt(rsub, k))
    requires Step(s, DeleteReceipt(rsub, n), s', a) && Step(t, DeleteReceipt(rsub, k), t', b)
    ensures Alike(s', t') && AnswersMatch(a, b)
  {
    hide Alike, SameReceipts;
    AlikeFields(s, t);
    if rsub in s.receipts {
      DeletesAgree(s, t, rsub, n, k);
    }
  }

  lemma ReadCallsAgree(s: State, rsub: string, s': State, a: Answer, t: State, t': State, b: Answer)
    requires Alike(s, t) && Valid(s) && Valid(t)
    requires Step(s, QueuedReceipts(rsub), s', a) && Step(t, QueuedReceipts(rsub), t', b)
    ensures Alike(s', t') && AnswersMatch(a, b)
  {
    hide Alike, Valid, IsReading, SameReceipts;
    ReadingsAgree(s, t, rsub, a.receipts, b.receipts);
  }

  lemma SubCallsAgree(s: State, c: Call, s': State, a: Answer, t: State, t': State, b: Answer)
    requires Alike(s, t) && (c.CreateReceiptSub? || c.DeleteReceiptSub?) && Step(s, c, s', a) && Step(t, c, t', b)
    ensures Alike(s', t') && AnswersMatch(a, b)
  {
    hide Alike, SameReceipts;
    AlikeFields(s, t);
    SubscriptionsAgree(s, t, c.rsub);
  }

  // -- The table against the maps -------------------------------------------

  /** The batch without the messages left behind. */
  function Visible(batch: seq<Message>, left: map<string, Message>): (r: seq<Message>)
    ensures forall m :: m in r <==> m in batch && m.id !in left
  {
    if |batch| == 0 then []
    else
      var front, m := Visible(batch[..|batch| - 1], left), batch[|batch| - 1];
      assert batch == batch[..|batch| - 1] + [m];
      if m.id in left then front else front + [m]
  }

  /**
   The table's answer is that of the maps, or shows messages left behind: one found by id, or
   some in a backlog batch, where they take the place of the latest of the others.
   */
  ghost predicate TableAnswers(left: map<string, Message>, a: Answer, b: Answer) {
    if a.Found? && b.Found? && a.message.None? && b.message.Some? then
      b.message.value.id in left && left[b.message.value.id] == b.message.value
    else if a.Messages? && b.Messages? then Visible(b.batch, left) <= a.batch && |a.batch| <= |b.batch|
    else AnswersMatch(a, b)
  }

  /** When nothing was left behind the answers match. */
  lemma NothingHidden(a: Answer, b: Answer)
    requires TableAnswers(map[], a, b)
    ensures AnswersMatch(a, b)
  {
    if a.Messages? && b.Messages? {
      AllVisible(b.batch);
    }
  }

  lemma {:induction false} AllVisible(batch: seq<Message>)
    ensures Visible(batch, map[]) == batch
  {
    if |batch| > 0 {
      var front, m := batch[..|batch| - 1], batch[|batch| - 1];
      assert Visible(batch, map[]) == Visible(front, map[]) + [m];
      hide Visible;
      AllVisible(front);
      assert batch == front + [m];
    }
  }

  lemma {:induction false} VisibleKeepsOrder(batch: seq<Message>, left: map<string, Message>)
    requires OldestFirst(batch)
    ensures OldestFirst(Visible(batch, left)) && |Visible(batch, left)| <= |batch|
    decreases |batch|
  {
    hide Older;
    if |batch| > 0 {
      var front, m := batch[..|batch| - 1], batch[|batch| - 1];
      VisibleKeepsOrder(front, left);
      var shown := Visible(front, left);
      forall i | 0 <= i < |shown| ensures Older(shown[i], m) {
        assert shown[i] in front;
        var j :| 0 <= j < |front| && front[j] == shown[i];
        assert batch[j] == front[j];
      }
    }
  }

  /** A list without repetition is no longer than one that contains it. */
  lemma NoLongerThan(a: seq<Message>, b: seq<Message>)
    requires OldestFirst(a) && forall m :: m in a ==> m in b
    ensures |a| <= |b|
  {
    ElementsOf(a);
    var x, y := set m | m in a, set m | m in b;
    assert y == x + (y - x);
    FewElements(b);
  }

  lemma {:induction false} ElementsOf(a: seq<Message>)
    requires OldestFirst(a)
    ensures |set m | m in a| == |a|
  {
    if |a| > 0 {
      var front, m := a[..|a| - 1], a[|a| - 1];
      ElementsOf(front);
      NotRepeated(a, |a| - 1, front);
      assert (set x | x in a) == (set x | x in front) + {m};
    }
  }

  lemma {:induction false} FewElements(a: seq<Message>)
    ensures |set m | m in a| <= |a|
  {
    if |a| > 0 {
      var front, m := a[..|a| - 1], a[|a| - 1];
      FewElements(front);
      assert (set x | x in a) == (set x | x in front) + {m};
    }
  }

  /** What the table's batch shows of the stored messages is itself a batch of them. */
  lemma VisibleIsPending(s: State, x: Layout.Residue, uaid: string, now: nat, limit: nat, b: seq<Message>)
    requires Layout.LeftBehind(s, x) && IsPending(Layout.Everything(s, x), uaid, now, limit, b)
    ensures IsPending(s.messages, uaid, now, |Visible(b, x.left)|, Visible(b, x.left))
  {
    hide Layout.Everything, Layout.LeftBehind, Older, OldestFirst, Due;
    var shown := Visible(b, x.left);
    VisibleKeepsOrder(b, x.left);
    forall m ensures m in shown ==> Due(s.messages, uaid, now, m) {
      DueApart(s, x, uaid, now, m);
      DueIds(s, x, uaid, now, m);
    }
    forall m | Due(s.messages, uaid, now, m) && m !in shown
      ensures forall i :: 0 <= i < |shown| ==> Older(shown[i], m)
    {
      DueApart(s, x, uaid, now, m);
      DueIds(s, x, uaid, now, m);
      forall i | 0 <= i < |shown| ensures Older(shown[i], m) {
        assert shown[i] in b;
        var j :| 0 <= j < |b| && b[j] == shown[i];
      }
    }
  }

  /** What the table's batch shows of the stored messages is the front of the maps' batch. */
  lemma PendingHides(
    s: State, x: Layout.Residue, uaid: string, now: nat, limit: nat, a: seq<Message>, b: seq<Message>)
    requires Layout.LeftBehind(s, x)
    requires IsPending(s.messages, uaid, now, limit, a) && IsPending(Layout.Everything(s, x), uaid, now, limit, b)
    ensures Visible(b, x.left) <= a && |a| <= |b|
  {
    hide Layout.Everything, Layout.LeftBehind, Older, OldestFirst, Due;
    var shown := Visible(b, x.left);
    VisibleKeepsOrder(b, x.left);
    VisibleIsPending(s, x, uaid, now, limit, b);
    if |a| < limit {
      NoLongerThan(shown, a);
    }
    if |b| < limit {
      forall m | m in a ensures m in b {
        DueApart(s, x, uaid, now, m);
      }
      NoLongerThan(a, b);
    }
    Shorter(s.messages, uaid, now, limit, a, |shown|);
    PendingUnique(s.messages, uaid, now, |shown|, shown, a[..|shown|]);
  }

  lemma DueIds(s: State, x: Layout.Residue, uaid: string, now: nat, m: Message)
    requires Layout.LeftBehind(s, x)
    ensures Due(s.messages, uaid, now, m) ==> m.id !in x.left
    ensures Due(x.left, uaid, now, m) ==> m.id in x.left
  {
  }

  /** The front of a batch is the batch of a lower limit. */
  lemma Shorter(messages: map<string, Message>, uaid: string, now: nat, limit: nat, a: seq<Message>, n: nat)
    requires IsPending(messages, uaid, now, limit, a) && n <= |a|
    ensures IsPending(messages, uaid, now, n, a[..n])
  {
    hide Older, Due;
    assert a == a[..n] + a[n..];
    forall m | m in a[n..] ensures forall i :: 0 <= i < n ==> Older(a[i], m) {
      var j :| 0 <= j < |a| - n && a[n..][j] == m;
    }
  }

  /**
   From like states, matching calls on the maps and the table: like states, and answers alike but
   for what was left behind.
   */
  lemma TableAgrees(
    s: State, c: Call, s': State, a: Answer,
    t: State, x: Layout.Residue, d: Call, t': State, x': Layout.Residue, b: Answer)
    requires Alike(s, t) && Valid(s) && Valid(t) && Layout.LeftBehind(t, x) && CallsMatch(s, c, t, d)
    requires Step(s, c, s', a) && TableStep(t, x, d, t', x', b)
    ensures Alike(s', t') && TableAnswers(x.left, a, b)
  {
    hide Alike, AnswersMatch, IsPending, Layout.LeftBehind, Valid, CallsMatch, Layout.Everything;
    if SeesLeft(c) {
      SeesAlike(s, c, t, d);
      SeesAgree(s, c, s', a, t, x, t', x', b);
    } else {
      NotSeen(s, c, t, d);
      StepsAgree(s, c, s', a, t, d, t', b);
      MatchAnswers(s, c, s', a, x.left, b);
    }
  }

  lemma SeesAlike(s: State, c: Call, t: State, d: Call)
    requires CallsMatch(s, c, t, d) && SeesLeft(c)
    ensures c == d
  {
  }

  lemma NotSeen(s: State, c: Call, t: State, d: Call)
    requires CallsMatch(s, c, t, d) && !SeesLeft(c)
    ensures !SeesLeft(d)
  {
  }

  lemma MatchAnswers(s: State, c: Call, s': State, a: Answer, left: map<string, Message>, b: Answer)
    requires !SeesLeft(c) && Step(s, c, s', a) && AnswersMatch(a, b)
    ensures TableAnswers(left, a, b)
  {
    hide Dropped, Purged, IsReading, ListsSubscriptions, SameReceipts;
  }

  /** A message found by id is the stored one, or one left behind. */
  lemma FoundHides(s: State, x: Layout.Residue, id: string, owner: Option<ChannelKey>)
    requires Layout.LeftBehind(s, x)
    ensures TableAnswers(x.left, Found(Deletable(s, id, owner)), Found(RowDeletable(s, x, id, owner)))
    ensures TableAnswers(x.left, Found(Lookup(s.messages, id)), Found(Lookup(Layout.Everything(s, x), id)))
  {
    hide TableAnswers;
    FoundAnswers(x.left, Deletable(s, id, owner), RowDeletable(s, x, id, owner));
    FoundAnswers(x.left, Lookup(s.messages, id), Lookup(Layout.Everything(s, x), id));
  }

  lemma FoundAnswers(left: map<string, Message>, a: Option<Message>, b: Option<Message>)
    requires a == b || (a.None? && b.Some? && b.value.id in left && left[b.value.id] == b.value)
    ensures TableAnswers(left, Found(a), Found(b))
  {
  }

  lemma DeletedAlike(s: State, t: State, id: string, owner: Option<ChannelKey>)
    requires Alike(s, t)
    ensures Alike(Deleted(s, id, owner), Deleted(t, id, owner))
  {
    hide Pile;
  }

  lemma DeletableAlike(s: State, t: State, id: string, owner: Option<ChannelKey>)
    requires s.messages == t.messages
    ensures Deletable(s, id, owner) == Deletable(t, id, owner)
  {
  }

  lemma SeesAgree(
    s: State, c: Call, s': State, a: Answer, t: State, x: Layout.Residue, t': State, x': Layout.Residue, b: Answer)
    requires Alike(s, t) && Valid(s) && Valid(t) && Layout.LeftBehind(t, x) && SeesLeft(c)
    requires Step(s, c, s', a) && TableStep(t, x, c, t', x', b)
    ensures Alike(s', t') && TableAnswers(x.left, a, b)
  {
    hide Alike, Valid, Layout.LeftBehind, Step, TableStep, TableAnswers;
    match c {
      case Pending(uaid, now, limit) => BacklogAgrees(s, uaid, now, limit, s', a, t, x, t', x', b);
      case ReadMessage(id) => FindAgrees(s, id, s', a, t, x, t', x', b);
      case DeleteMessage(id, owner) => WithdrawAgrees(s, id, owner, s', a, t, x, t', x', b);
    }
  }

  lemma BacklogAgrees(
    s: State, uaid: string, now: nat, limit: nat, s': State, a: Answer,
    t: State, x: Layout.Residue, t': State, x': Layout.Residue, b: Answer)
    requires Alike(s, t) && Layout.LeftBehind(t, x)
    requires Step(s, Pending(uaid, now, limit), s', a) && TableStep(t, x, Pending(uaid, now, limit), t', x', b)
    ensures Alike(s', t') && TableAnswers(x.left, a, b)
  {
    hide Alike, IsPending, Layout.LeftBehind, Layout.Everything, LeftAfter, Noted;
    AlikeFields(s, t);
    PendingHides(t, x, uaid, now, limit, a.batch, b.batch);
  }

  lemma FindAgrees(
    s: State, id: string, s': State, a: Answer, t: State, x: Layout.Residue, t': State, x': Layout.Residue, b: Answer)
    requires Alike(s, t) && Layout.LeftBehind(t, x)
    requires Step(s, ReadMessage(id), s', a) && TableStep(t, x, ReadMessage(id), t', x', b)
    ensures Alike(s', t') && TableAnswers(x.left, a, b)
  {
    hide Alike, Layout.LeftBehind, Layout.Everything, LeftAfter, Noted, TableAnswers;
    AlikeFields(s, t);
    FoundHides(t, x, id, None);
  }

  lemma WithdrawAgrees(
    s: State, id: string, owner: Option<ChannelKey>, s': State, a: Answer,
    t: State, x: Layout.Residue, t': State, x': Layout.Residue, b: Answer)
    requires Alike(s, t) && Layout.LeftBehind(t, x)
    requires Step(s, DeleteMessage(id, owner), s', a) && TableStep(t, x, DeleteMessage(id, owner), t', x', b)
    ensures Alike(s', t') && TableAnswers(x.left, a, b)
  {
    hide Alike, Layout.LeftBehind, Layout.Everything, LeftAfter, Noted, TableAnswers, RowDeletable, Deletable, Deleted;
    AlikeFields(s, t);
    FoundHides(t, x, id, owner);
    DeletableAlike(s, t, id, owner);
    DeletedAlike(s, t, id, owner);
  }

  // -- Runs -----------------------------------------------------------------

  ghost predicate MatchingCalls(calls: seq<Call>, trace: seq<State>, calls': seq<Call>, trace': seq<State>) {
    |calls| == |calls'| && |trace| == |trace'| == |calls| + 1
    && forall i :: 0 <= i < |calls| ==> CallsMatch(trace[i], calls[i], trace'[i], calls'[i])
  }

  /** Sequences of matching calls on two stores that start alike are answered alike throughout. */
  lemma {:induction false} TracesAgree(
    calls: seq<Call>, answers: seq<Answer>, trace: seq<State>,
    calls': seq<Call>, answers': seq<Answer>, trace': seq<State>, n: nat)
    requires IsTrace(calls, answers, trace) && IsTrace(calls', answers', trace')
    requires MatchingCalls(calls, trace, calls', trace') && n <= |calls|
    requires Alike(trace[0], trace'[0]) && Valid(trace[0]) && Valid(trace'[0])
    requires forall i :: 0 <= i < |calls| ==> Permitted(trace[i], calls[i]) && Permitted(trace'[i], calls'[i])
    ensures Alike(trace[n], trace'[n]) && Valid(trace[n]) && Valid(trace'[n])
    ensures forall i :: 0 <= i < n ==> AnswersMatch(answers[i], answers'[i])
  {
    hide Alike, Valid, Step, Permitted, CallsMatch, AnswersMatch;
    if n > 0 {
      var i := n - 1;
      TracesAgree(calls, answers, trace, calls', answers', trace', i);
      StepsAgree(trace[i], calls[i], trace[n], answers[i], trace'[i], calls'[i], trace'[n], answers'[i]);
      StepKeepsValid(trace[i], calls[i], trace[n], answers[i]);
      StepKeepsValid(trace'[i], calls'[i], trace'[n], answers'[i]);
    }
  }

  /** The same for the table: sequences of matching calls on the maps and on the rows, whatever their numbers. */
  lemma {:induction false} TableTracesAgree(
    calls: seq<Call>, answers: seq<Answer>, states: seq<State>,
    others: seq<Call>, rows: seq<Answer>, trace: seq<Contents>, n: nat)
    requires IsTrace(calls, answers, states) && IsTableTrace(others, rows, trace) && |others| == |calls| && n <= |calls|
    requires Alike(states[0], trace[0].s) && Valid(states[0])
    requires forall i :: 0 <= i <= |calls| ==> Sound(trace[i])
    requires forall i :: 0 <= i < |calls| ==>
               Permitted(states[i], calls[i]) && CallsMatch(states[i], calls[i], trace[i].s, others[i])
    ensures Alike(states[n], trace[n].s) && Valid(states[n])
    ensures forall i :: 0 <= i < n ==> TableAnswers(trace[i].x.left, answers[i], rows[i])
  {
    hide Alike, Valid, Step, TableStep, Permitted, CallsMatch, TableAnswers, Layout.LeftBehind;
    if n > 0 {
      var i := n - 1;
      TableTracesAgree(calls, answers, states, others, rows, trace, i);
      assert Sound(trace[i]);
      TableAgrees(
        states[i], calls[i], states[n], answers[i],
        trace[i].s, trace[i].x, others[i], trace[n].s, trace[n].x, rows[i]);
      StepKeepsValid(states[i], calls[i], states[n], answers[i]);
    }
  }

  /** What the table shows and the maps do not had expired by the latest reaping and owes nobody a receipt. */
  ghost predicate Spent(x: Layout.Residue) {
    forall id :: id in x.left ==>
      x.left[id].rsub.None? && x.left[id].expiry <= x.past.horizon && id in x.past.reaped
  }

  /** The two stores side by side: one call to each. */
  method Both(m: MemoryStore.MemoryStore, b: Bigtable.BigtableStore, c: Call, d: Call) returns (v: Answer, w: Answer)
    requires m.Valid() && b.Valid() && Alike(m.State(), b.s) && CallsMatch(m.State(), c, b.s, d)
    requires Shaped(d) && Suits(b.s, b.x.past, d) && Bigtable.Load(b.s) + 1 < Bigtable.CLOCK_END
    modifies m, b`s, b`x, b`last, b.t
    ensures m.Valid() && b.Valid() && Alike(m.State(), b.s)
    ensures TableAnswers(old(b.x).left, v, w) && Spent(old(b.x))
    ensures Step(old(m.State()), c, m.State(), v) && TableStep(old(b.s), old(b.x), d, b.s, b.x, w)
    ensures Bigtable.Load(b.s) <= Bigtable.Load(old(b.s)) + 1
  {
    hide Alike, Valid, Step, TableStep, Shaped, Suits, Layout.Rep, Bigtable.Load, TableAnswers, CallsMatch, Permitted;
    hide Spent;
    ghost var s, t, x := m.State(), b.s, b.x;
    SuitsPermitted(s, c, b.t.view, t, x, d);
    LeftSpent(b.t.view, t, x);
    v := m.Execute(c);
    w := b.Execute(d);
    TableAgrees(s, c, m.State(), v, t, x, d, b.s, b.x, w);
  }

  lemma LeftSpent(view: Tables.View, t: State, x: Layout.Residue)
    requires Layout.Rep(view, t, x)
    ensures Spent(x)
  {
  }

  lemma SuitsPermitted(s: State, c: Call, view: Tables.View, t: State, x: Layout.Residue, d: Call)
    requires Alike(s, t) && CallsMatch(s, c, t, d) && Layout.Rep(view, t, x) && Suits(t, x.past, d)
    ensures Permitted(s, c) && Layout.LeftBehind(t, x)
  {
    hide Pile;
    Layout.UsedCovers(view, t, x);
  }

  /** A caller: the call it makes next, after the answers it got. */
  type Caller = seq<Answer> -> Call

  /** The calls are those the caller makes on these answers. */
  predicate Makes(p: Caller, calls: seq<Call>, answers: seq<Answer>) {
    |calls| == |answers| && forall i :: 0 <= i < |calls| ==> calls[i] == p(answers[..i])
  }

  lemma MakesNothing(p: Caller)
    ensures Makes(p, [], [])
  {
  }

  lemma MakesNext(p: Caller, calls: seq<Call>, answers: seq<Answer>, a: Answer)
    requires Makes(p, calls, answers)
    ensures Makes(p, calls + [p(answers)], answers + [a])
  {
    var longer := answers + [a];
    forall i | 0 <= i < |longer| ensures (calls + [p(answers)])[i] == p(longer[..i]) {
      assert longer[..i] == answers[..i];
      assert answers[..|answers|] == answers;
    }
  }

  /**
   For `n` more calls, whatever the answers, the call that `q` makes of the table matches the one that
   `p` makes of the maps, and suits the table. The sequence numbers of the table stay below 2^64.
   */
  ghost predicate AllMatch(
    s: State, t: State, x: Layout.Residue, n: nat, p: Caller, answers: seq<Answer>, q: Caller, rows: seq<Answer>)
    decreases n
  {
    n == 0
    || (CallsMatch(s, p(answers), t, q(rows)) && Shaped(q(rows)) && Suits(t, x.past, q(rows))
        && forall s', a, t', x', b ::
             Step(s, p(answers), s', a) && TableStep(t, x, q(rows), t', x', b) && t'.last < U64 ==>
               AllMatch(s', t', x', n - 1, p, answers + [a], q, rows + [b]))
  }

  /** The caller that makes the calls of a list, and then asks for nothing. */
  function Listed(calls: seq<Call>): Caller {
    (answers: seq<Answer>) => if |answers| < |calls| then calls[|answers|] else ReadMessage("")
  }

  /** The same list of calls may be given to both stores if it names no receipt by its number. */
  lemma {:induction false} SameCallsMatch(
    s: State, t: State, x: Layout.Residue, calls: seq<Call>, answers: seq<Answer>, rows: seq<Answer>)
    requires |answers| == |rows| <= |calls| && AllSuit(t, x, calls[|rows|..])
    requires forall c :: c in calls ==> !c.DeleteReceipt?
    ensures AllMatch(s, t, x, |calls| - |rows|, Listed(calls), answers, Listed(calls), rows)
    decreases |calls| - |rows|
  {
    hide Shaped, Suits, Step, TableStep;
    var i, p := |rows|, Listed(calls);
    if i < |calls| {
      assert p(answers) == p(rows) == calls[i] && calls[i] in calls;
      assert calls[i..][0] == calls[i] && calls[i..][1..] == calls[i + 1..];
      forall s', a, t', x', b | Step(s, p(answers), s', a) && TableStep(t, x, p(rows), t', x', b) && t'.last < U64
        ensures AllMatch(s', t', x', |calls| - i - 1, p, answers + [a], p, rows + [b])
      {
        SameCallsMatch(s', t', x', calls, answers + [a], rows + [b]);
      }
    }
  }

  /** The caller that queues a receipt, and then takes it off by the number it was given. */
  function QueuesAndTakes(r: Receipt): Caller {
    (answers: seq<Answer>) =>
      if |answers| > 0 && answers[0].Number? && answers[0].n.Some? then DeleteReceipt(r.rsub, answers[0].n.value)
      else EnqueueReceipt(r)
  }

  /** Queueing a receipt and taking it off suits both stores, whatever the numbers each gives it. */
  lemma ReceiptLifeMatches(s: State, t: State, x: Layout.Residue, r: Receipt)
    requires Alike(s, t) && IsId(r.rsub) && r.status < U16 && r.rsub in s.receipts
    ensures AllMatch(s, t, x, 2, QueuesAndTakes(r), [], QueuesAndTakes(r), [])
  {
    hide Alike, TableStep, Step, CallsMatch, Enqueued, Shaped, Suits;
    AlikeFields(s, t);
    var p := QueuesAndTakes(r);
    QueuesMatch(s, t, x, r);
    forall s', a, t', x', b | Step(s, p([]), s', a) && TableStep(t, x, p([]), t', x', b) && t'.last < U64
      ensures AllMatch(s', t', x', 1, p, [a], p, [b])
    {
      EnqueueOutcome(s, r, s', a);
      EnqueuesOnTable(t, x, r, t', x', b);
      EnqueueOutcome(t, r, t', b);
      TakesMatch(s, a.n.value, t, b.n.value, x', r);
      LastMatches(s', t', x', p, [a], p, [b]);
    }
    FirstMatches(s, t, x, 1, p, p);
  }

  lemma QueuesMatch(s: State, t: State, x: Layout.Residue, r: Receipt)
    requires IsId(r.rsub) && r.status < U16
    ensures var c := EnqueueReceipt(r); CallsMatch(s, c, t, c) && Shaped(c) && Suits(t, x.past, c)
  {
  }

  /** The receipt just queued is found under either number. */
  lemma TakesMatch(s: State, n: nat, t: State, k: nat, x: Layout.Residue, r: Receipt)
    requires r.rsub in s.receipts && r.rsub in t.receipts && IsId(r.rsub)
    ensures CallsMatch(Enqueued(s, n, r), DeleteReceipt(r.rsub, n), Enqueued(t, k, r), DeleteReceipt(r.rsub, k))
    ensures (k < U64 ==> Shaped(DeleteReceipt(r.rsub, k))) && Suits(t, x.past, DeleteReceipt(r.rsub, k))
    ensures Enqueued(t, k, r).last == k && forall t': State :: Suits(t', x.past, DeleteReceipt(r.rsub, k))
  {
  }

  lemma LastMatches(
    s: State, t: State, x: Layout.Residue, p: Caller, answers: seq<Answer>, q: Caller, rows: seq<Answer>)
    requires CallsMatch(s, p(answers), t, q(rows)) && Shaped(q(rows)) && Suits(t, x.past, q(rows))
    ensures AllMatch(s, t, x, 1, p, answers, q, rows)
  {
    hide CallsMatch, Shaped, Suits, Step, TableStep;
  }

  lemma FirstMatches(s: State, t: State, x: Layout.Residue, n: nat, p: Caller, q: Caller)
    requires CallsMatch(s, p([]), t, q([])) && Shaped(q([])) && Suits(t, x.past, q([]))
    requires forall s', a, t', x', b ::
               Step(s, p([]), s', a) && TableStep(t, x, q([]), t', x', b) && t'.last < U64 ==>
                 AllMatch(s', t', x', n, p, [a], q, [b])
    ensures AllMatch(s, t, x, n + 1, p, [], q, [])
  {
    hide CallsMatch, Shaped, Suits, Step, TableStep;
    assert forall a: Answer :: [] + [a] == [a];
  }

  lemma EnqueuesOnTable(t: State, x: Layout.Residue, r: Receipt, t': State, x': Layout.Residue, b: Answer)
    requires TableStep(t, x, EnqueueReceipt(r), t', x', b)
    ensures Step(t, EnqueueReceipt(r), t', b)
  {
    hide Step;
  }

  lemma NumbersFit(s: State)
    requires Bigtable.Load(s) < Bigtable.CLOCK_END
    ensures s.last < U64
  {
  }

  /**
   Both stores over a run of calls, each made after the answers so far: at every index the states are
   alike and the answers match, but for messages the reaper had left behind by then.
   */
  method Compare(m: MemoryStore.MemoryStore, b: Bigtable.BigtableStore, n: nat, p: Caller, q: Caller)
    returns (
      calls: seq<Call>, answers: seq<Answer>, others: seq<Call>, rows: seq<Answer>,
      ghost states: seq<State>, ghost trace: seq<Contents>)
    requires m.Valid() && b.Valid() && Alike(m.State(), b.s) && AllMatch(m.State(), b.s, b.x, n, p, [], q, [])
    requires Bigtable.Load(b.s) + n < Bigtable.CLOCK_END
    modifies m, b`s, b`x, b`last, b.t
    ensures m.Valid() && b.Valid() && |calls| == |others| == n
    ensures IsTrace(calls, answers, states) && states[0] == old(m.State()) && states[n] == m.State()
    ensures IsTableTrace(others, rows, trace)
    ensures trace[0] == Contents(old(b.s), old(b.x)) && trace[n] == Contents(b.s, b.x)
    ensures Makes(p, calls, answers) && Makes(q, others, rows)
    ensures forall i :: 0 <= i <= n ==> Alike(states[i], trace[i].s) && Spent(trace[i].x)
    ensures forall i :: 0 <= i < n ==> TableAnswers(trace[i].x.left, answers[i], rows[i])
  {
    hide Alike, Valid, Step, TableStep, Shaped, Suits, Layout.Rep, Bigtable.Load, TableAnswers, CallsMatch, Spent;
    hide Makes;
    MakesNothing(p);
    MakesNothing(q);
    LeftSpent(b.t.view, b.s, b.x);
    calls, answers, others, rows, states, trace := [], [], [], [], [m.State()], [Contents(b.s, b.x)];
    for i := 0 to n
      invariant m.Valid() && b.Valid() && |calls| == |others| == i
      invariant IsTrace(calls, answers, states) && states[0] == old(m.State()) && states[i] == m.State()
      invariant IsTableTrace(others, rows, trace)
      invariant trace[0] == Contents(old(b.s), old(b.x)) && trace[i] == Contents(b.s, b.x)
      invariant AllMatch(m.State(), b.s, b.x, n - i, p, answers, q, rows)
      invariant Bigtable.Load(b.s) <= Bigtable.Load(old(b.s)) + i
      invariant Makes(p, calls, answers) && Makes(q, others, rows)
      invariant forall j :: 0 <= j <= i ==> Alike(states[j], trace[j].s) && Spent(trace[j].x)
      invariant forall j :: 0 <= j < i ==> TableAnswers(trace[j].x.left, answers[j], rows[j])
    {
      var c, d := p(answers), q(rows);
      var v, w := Both(m, b, c, d);
      LeftSpent(b.t.view, b.s, b.x);
      NumbersFit(b.s);
      assert (calls + [c])[..i] == calls && (calls + [c])[..i + 1] == calls + [c];
      assert (others + [d])[..i] == others && (others + [d])[..i + 1] == others + [d];
      TraceExtends(calls + [c], answers, states, i, m.State(), v);
      TableTraceExtends(others + [d], rows, trace, i, Contents(b.s, b.x), w);
      MakesNext(p, calls, answers, v);
      MakesNext(q, others, rows, w);
      calls, answers, states := calls + [c], answers + [v], states + [m.State()];
      others, rows, trace := others + [d], rows + [w], trace + [Contents(b.s, b.x)];
    }
  }
}
