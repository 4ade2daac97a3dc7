/**
 What concurrent removals do see to: a stored message is found and removed by whoever looks for
 it undisturbed, and a receipt once owed is queued unless its process stops or its subscription
 is gone. `Removal` proves that nothing more than this happens.
 */
module RemovalFacts {
  import opened Types
  import opened Keys
  import opened Tables
  import opened Layout
  import opened Removal

  /** The next RPC of process `pid` is one on the way to the receipt for message `id`. */
  ghost predicate Claims(w: World, pid: nat, id: string) {
    pid in w.procs && |w.procs[pid]| > 0
    && var op := w.procs[pid][0];
       (op.DropIndex? || op.CheckQueue? || op.PutReceipt?) && op.m.id == id
  }

  /** Some process is on the way to it. */
  ghost predicate InHand(w: World, id: string) {
    exists pid :: Claims(w, pid, id)
  }

  /** At some step the process on its way to the receipt stopped, or the subscription had no row. */
  ghost predicate Lost(run: seq<World>, id: string, rsub: string) {
    exists i, pid ::
      0 <= i < |run| - 1 && Claims(run[i], pid, id) && (pid !in run[i + 1].procs || Rsub(rsub) !in run[i].view)
  }

  /** `why` is a removal of message `id` that owes a receipt: any but a withdrawal. */
  ghost predicate Owing(w: World, id: string, why: Why) {
    (id, why) in w.removals && !why.Withdrawn? && id in w.all && w.all[id].rsub.Some?
  }

  // -- A claim is kept ------------------------------------------------------

  lemma OneReason(w: World, id: string, why: Why, other: Why)
    requires RemovalsOnce(w) && (id, why) in w.removals && (id, other) in w.removals
    ensures why == other
  {
    hide Entitled;
    var i :| 0 <= i < |w.removals| && w.removals[i] == (id, why);
    var j :| 0 <= j < |w.removals| && w.removals[j] == (id, other);
  }

  lemma ClaimKnows(w: World, pid: nat, id: string)
    requires Inv(w) && Claims(w, pid, id)
    ensures RemovalsOnce(w) && Known(w, w.procs[pid][0].m) && OpKnows(w, w.procs[pid][0])
  {
    hide OpKnows, RowsKnown, RemovalsOnce, ReceiptsOnce, OnlyHeads, HeadsApart;
    assert OpKnows(w, w.procs[pid][0]);
    OpKnowsItsMessage(w, w.procs[pid][0]);
  }

  lemma OpKnowsItsMessage(w: World, op: Op)
    requires OpKnows(w, op) && (op.DropIndex? || op.CheckQueue? || op.PutReceipt?)
    ensures Known(w, op.m)
  {
  }

  /** The RPC on the way to a receipt leads to the next one, to the receipt, or finds no subscription. */
  lemma ClaimAdvances(w: World, op: Op, w1: World, next: seq<Op>, id: string, why: Why)
    requires RemovalsOnce(w) && OpKnows(w, op) && Does(w, op, w1, next) && Owing(w, id, why)
    requires (op.DropIndex? || op.CheckQueue? || op.PutReceipt?) && op.m.id == id
    ensures (|next| > 0 && (next[0].CheckQueue? || next[0].PutReceipt?) && next[0].m.id == id)
            || WasReceipted(w1, id) || Rsub(w.all[id].rsub.value) !in w.view
  {
    hide Mutated, RemovalsOnce, Justified, WasRemoved;
    match op {
      case DropIndex(m, reason) => OneReason(w, id, why, reason);
      case CheckQueue(m, status) =>
      case PutReceipt(m, status) => assert w1.receipts[|w.receipts|].msgId == id;
    }
  }

  lemma ClaimStays(w: World, m: Move, w': World, pid: nat, id: string, why: Why)
    requires Inv(w) && Moves(w, m, w') && Claims(w, pid, id) && Owing(w, id, why)
    ensures Claims(w', pid, id) || WasReceipted(w', id) || pid !in w'.procs || Rsub(w.all[id].rsub.value) !in w.view
  {
    hide Inv, Does, Admissible, Program, Owing;
    ClaimKnows(w, pid, id);
    if m == Run(pid) {
      var op := w.procs[pid][0];
      var w1, next :| Does(w, op, w1, next) && w' == w1.(procs := w.procs[pid := next + w.procs[pid][1..]]);
      hide Known, RemovalsOnce, OpKnows;
      ClaimAdvances(w, op, w1, next, id, why);
    } else if m.Run? {
      assert w'.procs[pid] == w.procs[pid];
    }
  }

  /** Whoever removes a message is on its way to the receipt. */
  lemma RemovalClaims(w: World, m: Move, w': World, id: string, why: Why) returns (pid: nat)
    requires Moves(w, m, w') && (id, why) in w'.removals && (id, why) !in w.removals
    ensures Claims(w', pid, id)
  {
    hide Does, Admissible, Program, Claims;
    assert m.Run?;
    pid := m.pid;
    var op := w.procs[pid][0];
    var w1, next :| Does(w, op, w1, next) && w' == w1.(procs := w.procs[pid := next + w.procs[pid][1..]]);
    RemovalNext(w, op, w1, next, id, why);
    ClaimAt(w', pid, id);
  }

  lemma RemovalNext(w: World, op: Op, w1: World, next: seq<Op>, id: string, why: Why)
    requires Does(w, op, w1, next) && (id, why) in w1.removals && (id, why) !in w.removals
    ensures op.RemoveRow? && op.m.id == id && op.why == why && next == [DropIndex(op.m, why)]
  {
    hide Mutated, Occupant, Names, NamesNothing, Decoded, Holds, Encode, Cells, MessageKey;
  }

  lemma ClaimAt(w: World, pid: nat, id: string)
    requires pid in w.procs && |w.procs[pid]| > 0 && w.procs[pid][0].DropIndex? && w.procs[pid][0].m.id == id
    ensures Claims(w, pid, id)
  {
  }

  /** What is recorded stays recorded. */
  lemma RecordGrows(w: World, m: Move, w': World)
    requires Inv(w) && Moves(w, m, w')
    ensures forall id :: id in w.all ==> id in w'.all && w'.all[id] == w.all[id]
    ensures forall id :: WasReceipted(w, id) ==> WasReceipted(w', id)
    ensures w.receipts <= w'.receipts
  {
    hide Inv, Does, Program, WasReceipted;
    if m.Run? {
      var w1, next :|
        Does(w, w.procs[m.pid][0], w1, next) && w' == w1.(procs := w.procs[m.pid := next + w.procs[m.pid][1..]]);
      DoesGrow(w, w.procs[m.pid][0], w1, next);
    }
    forall id | WasReceipted(w, id) ensures WasReceipted(w', id) {
      ReceiptedStill(w, w', id);
    }
  }

  lemma DoesGrow(w: World, op: Op, w1: World, next: seq<Op>)
    requires Does(w, op, w1, next)
    ensures w1.all == w.all && w.receipts <= w1.receipts
  {
    hide Mutated, Occupant, Names, NamesNothing, Decoded, Holds, Encode, Cells, MessageKey;
  }

  lemma ReceiptedStill(w: World, w': World, id: string)
    requires w.receipts <= w'.receipts && WasReceipted(w, id)
    ensures WasReceipted(w', id)
  {
    var i :| 0 <= i < |w.receipts| && w.receipts[i].msgId == id;
    assert w'.receipts[i].msgId == id;
  }

  // -- Over runs ------------------------------------------------------------

  lemma Before(run: seq<World>)
    requires IsRun(run) && |run| > 1
    ensures IsRun(run[..|run| - 1]) && Next(run[|run| - 2], run[|run| - 1])
  {
    hide Initial, Next;
    var before := run[..|run| - 1];
    forall i | 0 <= i < |before| - 1 ensures Next(before[i], before[i + 1]) {
      assert before[i] == run[i] && before[i + 1] == run[i + 1];
    }
  }

  lemma LostStays(run: seq<World>, id: string, rsub: string)
    requires |run| > 1 && Lost(run[..|run| - 1], id, rsub)
    ensures Lost(run, id, rsub)
  {
    hide Claims;
    var before := run[..|run| - 1];
    var i, pid :| 0 <= i < |before| - 1 && Claims(before[i], pid, id)
                  && (pid !in before[i + 1].procs || Rsub(rsub) !in before[i].view);
    assert before[i] == run[i] && before[i + 1] == run[i + 1];
  }

  /**
   A message removed otherwise than by withdrawal, with a receipt subscription, has its receipt; or
   its process is on the way to it; or that process stopped, or the subscription had no row then.
   */
  lemma {:induction false} NoReceiptForgotten(run: seq<World>, id: string, why: Why)
    requires IsRun(run) && Owing(run[|run| - 1], id, why)
    ensures WasReceipted(run[|run| - 1], id) || InHand(run[|run| - 1], id)
            || Lost(run, id, run[|run| - 1].all[id].rsub.value)
    decreases |run|
  {
    hide IsRun, Inv, Moves, Claims, Lost, WasReceipted;
    if |run| > 1 {
      Before(run);
      var w, w' := run[|run| - 2], run[|run| - 1];
      var m :| Moves(w, m, w');
      var before := run[..|run| - 1];
      RunsKeepInv(before);
      if (id, why) in w.removals {
        OwingBefore(w, m, w', id, why);
        NoReceiptForgotten(before, id, why);
        RecordGrows(w, m, w');
        if pid :| Claims(w, pid, id) {
          ClaimStays(w, m, w', pid, id, why);
          if Claims(w', pid, id) || WasReceipted(w', id) {
          } else {
            LostNow(run, id, w.all[id].rsub.value, pid);
          }
        } else if !WasReceipted(w, id) {
          LostStays(run, id, w.all[id].rsub.value);
        }
      } else {
        var pid := RemovalClaims(w, m, w', id, why);
      }
    } else {
      NoneAtFirst(run);
    }
  }

  lemma NoneAtFirst(run: seq<World>)
    requires IsRun(run) && |run| <= 1
    ensures run[|run| - 1].removals == []
  {
  }

  lemma LostNow(run: seq<World>, id: string, rsub: string, pid: nat)
    requires |run| > 1 && Claims(run[|run| - 2], pid, id)
    requires pid !in run[|run| - 1].procs || Rsub(rsub) !in run[|run| - 2].view
    ensures Lost(run, id, rsub)
  {
    hide Claims;
    var i := |run| - 2;
    assert run[i + 1] == run[|run| - 1];
  }

  lemma OwingBefore(w: World, m: Move, w': World, id: string, why: Why)
    requires Inv(w) && Moves(w, m, w') && Owing(w', id, why) && (id, why) in w.removals
    ensures Owing(w, id, why)
  {
    hide Moves, RowsKnown, ReceiptsOnce, OpsKnow, OnlyHeads, HeadsApart, Entitled, WasReceipted;
    RecordGrows(w, m, w');
  }

  // -- A stored message is found --------------------------------------------

  /** The row of a message written and neither replaced nor removed nor collected holds it, and its id row names it. */
  ghost predicate Intact(w: World, m: Message) {
    Known(w, m) && MessageKey(m) in w.view && w.view[MessageKey(m)] == Cells(m)
    && Mid(m.id) in w.view && Points(w.view[Mid(m.id)], MessageKey(m))
  }

  /** A call that may delete it and meets it undisturbed at each of its steps removes it. */
  lemma IntactIsFound(run: seq<World>, m: Message, why: Why, w': World, next: seq<Op>)
    requires IsRun(run) && Intact(run[|run| - 1], m)
    requires why.Acked? ==> m.uaid == why.uaid && m.channelId == why.channelId
    ensures var w := run[|run| - 1];
            (Does(w, ReadIndex(m.id, why), w', next) ==> next == [ReadRow(m.id, MessageKey(m), why)])
            && (Does(w, ReadRow(m.id, MessageKey(m), why), w', next) ==> next == [RemoveRow(MessageKey(m), m, why)])
            && (Does(w, RemoveRow(MessageKey(m), m, why), w', next) ==>
                  MessageKey(m) !in w'.view && w'.removals == w.removals + [(m.id, why)] && next == [DropIndex(m, why)])
  {
    hide Does, MessageKey, WellFormed, RowsKnown, Points, Cells;
    var w := run[|run| - 1];
    KnownWell(run, m);
    IndexLeads(w, m, why, w', next);
    RowLeads(w, m, why, w', next);
    RemoveLeads(w, m, why, w', next);
  }

  lemma KnownWell(run: seq<World>, m: Message)
    requires IsRun(run) && Known(run[|run| - 1], m)
    ensures WellFormed(m) && RowsKnown(run[|run| - 1])
  {
    hide IsRun, RemovalsOnce, ReceiptsOnce, OpsKnow, OnlyHeads, HeadsApart, WellFormed, RowKnown, Points;
    RunsKeepInv(run);
  }

  lemma IndexLeads(w: World, m: Message, why: Why, w': World, next: seq<Op>)
    requires WellFormed(m) && RowsKnown(w) && Intact(w, m)
    ensures Does(w, ReadIndex(m.id, why), w', next) ==> next == [ReadRow(m.id, MessageKey(m), why)]
  {
    hide RowsKnown, MessageKey, Cells, Encode, WellFormed, Good, Points, PointsSomewhere;
    MessageKeyGood(m);
    MessageKeyKind(m);
    PointsAway(w.view[Mid(m.id)], MessageKey(m));
    if Does(w, ReadIndex(m.id, why), w', next) {
      var target :| Names(w.view, Mid(m.id), target) && next == [ReadRow(m.id, target, why)];
      IndexNamesOwn(w, m.id, target);
    }
  }

  lemma PointsAway(row: Row, target: Key)
    requires target.Msg? && Good(target) && Points(row, target)
    ensures PointsSomewhere(row)
  {
  }

  lemma RowLeads(w: World, m: Message, why: Why, w': World, next: seq<Op>)
    requires WellFormed(m) && Intact(w, m)
    requires why.Acked? ==> m.uaid == why.uaid && m.channelId == why.channelId
    ensures Does(w, ReadRow(m.id, MessageKey(m), why), w', next) ==> next == [RemoveRow(MessageKey(m), m, why)]
  {
    hide MessageKey, Cells, Encode, WellFormed, MessageFromRow, Points;
    MessageRowRoundTrip(m);
  }

  lemma RemoveLeads(w: World, m: Message, why: Why, w': World, next: seq<Op>)
    requires Intact(w, m)
    ensures Does(w, RemoveRow(MessageKey(m), m, why), w', next) ==>
              MessageKey(m) !in w'.view && w'.removals == w.removals + [(m.id, why)] && next == [DropIndex(m, why)]
  {
    hide MessageKey, Encode, Points;
    CellsId(m);
    ClearedRow(w.view, MessageKey(m));
  }
}
