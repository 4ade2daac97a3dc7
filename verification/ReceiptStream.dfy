/**
 One open receipt stream: the queue read when it opened, then live receipts, each written to
 the client once and taken off the queue only after it was written.
 */
module ReceiptStream {
  import opened Prelude
  import opened Types
  import opened StoreSpec
  import Hub
  import MemoryStore

  /** What the stream did, in order. */
  datatype Entry = Wrote(n: nat, r: Receipt) | TookOff(rsub: string, n: nat) | Remarked

  /** What ends one wait of the loop: an event or the closed channel, the timer, or the client. */
  datatype Wake = Heard(e: Option<Hub.Event>) | Keepalive | Hangup

  predicate WroteAt(log: seq<Entry>, i: int, n: nat) {
    0 <= i < |log| && log[i].Wrote? && log[i].n == n
  }

  ghost predicate HasWritten(log: seq<Entry>, n: nat) {
    exists i :: WroteAt(log, i, n)
  }

  /** No number is written twice, and none is taken off the queue before it is written. */
  ghost predicate Orderly(log: seq<Entry>) {
    (forall i, j :: 0 <= i < j < |log| && log[i].Wrote? && log[j].Wrote? ==> log[i].n != log[j].n)
    && forall j :: 0 <= j < |log| && log[j].TookOff? ==>
         exists i :: WroteAt(log, i, log[j].n) && i < j && log[i].r.rsub == log[j].rsub
  }

  /** The queues with the receipts taken off. */
  function Reduced(q: map<string, Queue>, log: seq<Entry>): map<string, Queue> {
    if |log| == 0 then q
    else
      var before, e := Reduced(q, log[..|log| - 1]), log[|log| - 1];
      if e.TookOff? && e.rsub in before then before[e.rsub := before[e.rsub] - {e.n}] else before
  }

  /** What was written to the client, in order. */
  function Writes(log: seq<Entry>): seq<Numbered> {
    if |log| == 0 then []
    else
      var e := log[|log| - 1];
      Writes(log[..|log| - 1]) + if e.Wrote? then [(e.n, e.r)] else []
  }

  function Numbers(list: seq<Numbered>): set<nat> {
    set x | x in list :: x.0
  }

  /** The first receipt under each number, in order. */
  function Firsts(list: seq<Numbered>): seq<Numbered> {
    if |list| == 0 then []
    else
      var front, x := Firsts(list[..|list| - 1]), list[|list| - 1];
      if x.0 in Numbers(front) then front else front + [x]
  }

  /** The receipts heard, in order. */
  function Arrivals(wakes: seq<Wake>): seq<Numbered> {
    if |wakes| == 0 then []
    else
      var w := wakes[|wakes| - 1];
      Arrivals(wakes[..|wakes| - 1]) + if Receipts(w) then [(w.e.value.n, w.e.value.r)] else []
  }

  class Pump {
    const store: MemoryStore.MemoryStore
    var seen: set<nat>
    var log: seq<Entry>
    /** A write failed: the client has gone. */
    var cut: bool

    /** Everything seen was written, unless the client has gone. */
    ghost predicate Valid()
      reads this
    {
      Orderly(log) && (forall n :: HasWritten(log, n) ==> n in seen)
      && (!cut ==> forall n :: n in seen ==> HasWritten(log, n))
    }

    constructor (store: MemoryStore.MemoryStore)
      ensures Valid() && this.store == store && seen == {} && log == [] && !cut
    {
      this.store, seen, log, cut := store, {}, [], false;
    }

    /** Raw text, if the client is still there. */
    method Write(e: Entry) returns (ok: bool)
      modifies `log, `cut
      ensures log == if ok then old(log) + [e] else old(log)
      ensures cut == (old(cut) || !ok)
    {
      ok := *;
      if ok {
        log := log + [e];
      } else {
        cut := true;
      }
    }

    /** A receipt not seen before goes to the client first, then off the queue; false once the client is gone. */
    method Emit(n: nat, r: Receipt) returns (open: bool)
      requires Valid() && store.Valid()
      modifies this, store
      ensures Valid() && store.Valid() && n in seen && old(seen) <= seen
      ensures old(log) <= log && store.receipts == Reduced(old(store.receipts), log[|old(log)|..])
      ensures if open then cut == old(cut) else cut
      ensures open && n !in old(seen) ==> log == old(log) + [Wrote(n, r), TookOff(r.rsub, n)]
      ensures n in old(seen) ==> open && log == old(log)
      ensures !open ==> log == old(log)
    {
      hide StoreSpec.Valid, Orderly, HasWritten, Reduced;
      ReducedByNothing(store.receipts);
      ReducedByOne(store.receipts, n, r);
      if n in seen {
        assert log[|old(log)|..] == [];
        return true;
      }
      seen := seen + {n};
      var ok := Write(Wrote(n, r));
      if !ok {
        assert log[|old(log)|..] == [];
        return false;
      }
      WrittenOnce(old(log), n, r);
      store.DeleteReceipt(r.rsub, n);
      log := log + [TookOff(r.rsub, n)];
      assert log[|old(log)|..] == [Wrote(n, r), TookOff(r.rsub, n)];
      open := true;
    }

    /** What one wake-up leads to, after what was written of `list`. Returns whether the stream goes on. */
    method Hear(w: Wake, ghost list: seq<Numbered>) returns (open: bool)
      requires Valid() && store.Valid() && !cut && Faithful(log, false, list)
      modifies this, store
      ensures Valid() && store.Valid() && old(log) <= log && old(seen) <= seen
      ensures store.receipts == Reduced(old(store.receipts), log[|old(log)|..])
      ensures (open ==> !cut && !Ends(w)) && (!open ==> cut || Ends(w))
      ensures Receipts(w) ==> w.e.value.n in seen
      ensures Faithful(log, cut, if Receipts(w) then list + [(w.e.value.n, w.e.value.r)] else list)
    {
      hide StoreSpec.Valid, Orderly, HasWritten, Reduced, Faithful;
      match w {
        case Heard(Some(Receipted(n, r))) =>
          open := Emit(n, r);
          StaysFaithful(old(log), false, log, cut, list, (n, r)) by {
            assert HasWritten(old(log), n) <==> n in old(seen);
          }
          return;
        case Heard(Some(Pushed(_))) =>
          open := true;
          ReducedByNothing(store.receipts);
          assert log[|log|..] == [];
        case Heard(Some(Gone)) =>
          var told := Remark();
          open := false;
        case Heard(None) =>
          var told := Remark();
          open := false;
        case Keepalive => open := Remark();
        case Hangup =>
          open := false;
          ReducedByNothing(store.receipts);
          assert log[|log|..] == [];
      }
      QuietlyFaithful(old(log), log, cut, list);
    }

    /** The whole life of a stream: what was queued, then what is heard, until something ends it. */
    method Run(live: bool, backlog: seq<Numbered>, wakes: seq<Wake>) returns (open: bool, heard: nat)
      requires Valid() && store.Valid() && seen == {} && log == [] && !cut
      modifies this, store
      ensures Valid() && store.Valid() && heard <= |wakes| && (!live ==> heard == 0)
      ensures store.receipts == Reduced(old(store.receipts), log)
      ensures !cut ==> forall i :: 0 <= i < |backlog| ==> HasWritten(log, backlog[i].0)
      ensures !cut ==> forall i :: 0 <= i < heard && Receipts(wakes[i]) ==> HasWritten(log, wakes[i].e.value.n)
      ensures Faithful(log, cut, backlog + Arrivals(wakes[..heard]))
      ensures live && open ==> heard == |wakes|
      ensures open ==> !cut
      ensures live && !cut && heard < |wakes| ==> heard > 0 && Ends(wakes[heard - 1])
      ensures forall i :: 0 <= i < heard - 1 ==> !Ends(wakes[i])
      ensures live && !cut && open ==> forall i :: 0 <= i < heard ==> !Ends(wakes[i])
    {
      hide StoreSpec.Valid, Orderly, HasWritten, Reduced, Faithful, Arrivals;
      open, heard := true, 0;
      NothingWritten();
      assert backlog[..0] == [];
      ReducedByNothing(store.receipts);
      for i := 0 to |backlog|
        invariant Valid() && store.Valid() && (open ==> !cut) && (!open ==> cut)
        invariant store.receipts == Reduced(old(store.receipts), log)
        invariant open ==> forall j :: 0 <= j < i ==> backlog[j].0 in seen
        invariant Faithful(log, cut, backlog[..i])
      {
        assert backlog[..i + 1] == backlog[..i] + [backlog[i]];
        ghost var before, cutBefore, seenBefore := log, cut, seen;
        if open {
          open := Emit(backlog[i].0, backlog[i].1);
          ReducedAppend(old(store.receipts), before, log[|before|..]);
          assert before + log[|before|..] == log;
        }
        StaysFaithful(before, cutBefore, log, cut, backlog[..i], backlog[i]) by {
          assert !cutBefore ==> (HasWritten(before, backlog[i].0) <==> backlog[i].0 in seenBefore);
        }
      }
      assert backlog[..|backlog|] == backlog;
      assert wakes[..0] == [] && backlog + [] == backlog;
      if !live {
        return;
      }
      while open && heard < |wakes|
        invariant Valid() && store.Valid() && heard <= |wakes| && (open ==> !cut)
        invariant store.receipts == Reduced(old(store.receipts), log)
        invariant !cut ==> forall j :: 0 <= j < |backlog| ==> backlog[j].0 in seen
        invariant !cut ==> forall j :: 0 <= j < heard && Receipts(wakes[j]) ==> wakes[j].e.value.n in seen
        invariant !open && !cut ==> heard > 0 && Ends(wakes[heard - 1])
        invariant forall j :: 0 <= j < heard - 1 ==> !Ends(wakes[j])
        invariant open ==> forall j :: 0 <= j < heard ==> !Ends(wakes[j])
        invariant Faithful(log, cut, backlog + Arrivals(wakes[..heard]))
        decreases |wakes| - heard
      {
        ghost var before := log;
        open := Hear(wakes[heard], backlog + Arrivals(wakes[..heard]));
        ReducedAppend(old(store.receipts), before, log[|before|..]);
        assert before + log[|before|..] == log;
        ArrivesNext(backlog, wakes, heard);
        heard := heard + 1;
      }
    }

    /** A comment or the closing event. */
    method Remark() returns (ok: bool)
      requires Valid()
      modifies `log, `cut
      ensures Valid() && old(log) <= log && cut == (old(cut) || !ok)
      ensures log[|old(log)|..] == if ok then [Remarked] else []
      ensures forall q :: Reduced(q, log[|old(log)|..]) == q
    {
      ok := Write(Remarked);
      if ok {
        RemarkIsQuiet(old(log));
      }
    }
  }

  /** Written is the first receipt under each number, in order, up to where the client was cut off. */
  ghost predicate Faithful(log: seq<Entry>, cut: bool, list: seq<Numbered>) {
    Writes(log) <= Firsts(list) && (!cut ==> Writes(log) == Firsts(list))
  }

  lemma NothingWritten()
    ensures Faithful([], false, [])
    ensures Arrivals([]) == []
  {
  }

  lemma FirstsNext(list: seq<Numbered>, x: Numbered)
    ensures Firsts(list + [x]) == if x.0 in Numbers(Firsts(list)) then Firsts(list) else Firsts(list) + [x]
  {
    assert (list + [x])[..|list|] == list;
  }

  lemma WritesNext(log: seq<Entry>, e: Entry)
    ensures Writes(log + [e]) == Writes(log) + if e.Wrote? then [(e.n, e.r)] else []
  {
    assert (log + [e])[..|log|] == log;
  }

  lemma {:induction false} WritesNumbers(log: seq<Entry>, n: nat)
    ensures n in Numbers(Writes(log)) <==> HasWritten(log, n)
  {
    if |log| > 0 {
      var front, e := log[..|log| - 1], log[|log| - 1];
      WritesNumbers(front, n);
      assert log == front + [e];
      NumbersNext(Writes(front), e);
      WrittenPrefix(front, e);
      WritesNext(front, e);
    }
  }

  lemma NumbersNext(list: seq<Numbered>, e: Entry)
    ensures Numbers(list + if e.Wrote? then [(e.n, e.r)] else []) ==
            Numbers(list) + if e.Wrote? then {e.n} else {}
  {
    if e.Wrote? {
      forall x ensures x in list + [(e.n, e.r)] <==> x in list || x == (e.n, e.r) {}
      assert (e.n, e.r) in list + [(e.n, e.r)];
    } else {
      assert list + [] == list;
    }
  }

  /** One more receipt to emit. */
  lemma StaysFaithful(before: seq<Entry>, cutBefore: bool, log: seq<Entry>, cut: bool, list: seq<Numbered>, x: Numbered)
    requires Faithful(before, cutBefore, list) && (cutBefore ==> cut && log == before)
    requires log == before || (!HasWritten(before, x.0) && log == before + [Wrote(x.0, x.1), TookOff(x.1.rsub, x.0)])
    requires !cut && log == before ==> HasWritten(before, x.0)
    ensures Faithful(log, cut, list + [x])
  {
    hide HasWritten, Numbers;
    FirstsNext(list, x);
    WritesNumbers(before, x.0);
    if log != before {
      WritesNext(before, Wrote(x.0, x.1));
      WritesNext(before + [Wrote(x.0, x.1)], TookOff(x.1.rsub, x.0));
      assert log == before + [Wrote(x.0, x.1)] + [TookOff(x.1.rsub, x.0)];
    }
  }

  lemma QuietlyFaithful(before: seq<Entry>, log: seq<Entry>, cut: bool, list: seq<Numbered>)
    requires Faithful(before, false, list) && (log == before || log == before + [Remarked])
    ensures Faithful(log, cut, list)
  {
    hide Firsts;
    WritesNext(before, Remarked);
  }

  lemma ArrivesNext(backlog: seq<Numbered>, wakes: seq<Wake>, heard: nat)
    requires heard < |wakes|
    ensures var w, list := wakes[heard], backlog + Arrivals(wakes[..heard]);
            backlog + Arrivals(wakes[..heard + 1]) ==
            if Receipts(w) then list + [(w.e.value.n, w.e.value.r)] else list
  {
    assert wakes[..heard + 1][..heard] == wakes[..heard];
  }

  /** The listener is gone, its channel is closed, or the client hung up. */
  predicate Ends(w: Wake) {
    w.Hangup? || (w.Heard? && (w.e.None? || w.e.value.Gone?))
  }

  predicate Receipts(w: Wake) {
    w.Heard? && w.e.Some? && w.e.value.Receipted?
  }

  lemma WrittenOnce(log: seq<Entry>, n: nat, r: Receipt)
    requires Orderly(log) && !HasWritten(log, n)
    ensures var longer := log + [Wrote(n, r)];
            Orderly(longer) && (forall k :: HasWritten(longer, k) <==> HasWritten(log, k) || k == n)
    ensures var longer := log + [Wrote(n, r)] + [TookOff(r.rsub, n)];
            Orderly(longer) && (forall k :: HasWritten(longer, k) <==> HasWritten(log, k) || k == n)
  {
    var one := log + [Wrote(n, r)];
    var two := one + [TookOff(r.rsub, n)];
    WrittenPrefix(log, Wrote(n, r));
    WrittenPrefix(one, TookOff(r.rsub, n));
    forall i | 0 <= i < |log| && log[i].Wrote? ensures log[i].n != n {
      assert WroteAt(log, i, log[i].n);
    }
    assert WroteAt(two, |log|, n);
    forall j | 0 <= j < |log| && log[j].TookOff?
      ensures exists i :: WroteAt(one, i, log[j].n) && i < j && one[i].r.rsub == log[j].rsub
      ensures exists i :: WroteAt(two, i, log[j].n) && i < j && two[i].r.rsub == log[j].rsub
    {
      var i :| WroteAt(log, i, log[j].n) && i < j && log[i].r.rsub == log[j].rsub;
      assert WroteAt(one, i, log[j].n) && WroteAt(two, i, log[j].n);
    }
  }

  lemma WrittenPrefix(log: seq<Entry>, e: Entry)
    ensures forall k :: HasWritten(log + [e], k) <==> HasWritten(log, k) || (e.Wrote? && e.n == k)
  {
    var longer := log + [e];
    forall k ensures HasWritten(longer, k) <==> HasWritten(log, k) || (e.Wrote? && e.n == k) {
      if HasWritten(log, k) {
        var i :| WroteAt(log, i, k);
        assert WroteAt(longer, i, k);
      }
      if e.Wrote? && e.n == k {
        assert WroteAt(longer, |log|, k);
      }
      if HasWritten(longer, k) {
        var i :| WroteAt(longer, i, k);
        assert i < |log| ==> WroteAt(log, i, k);
      }
    }
  }

  lemma RemarkIsQuiet(log: seq<Entry>)
    requires Orderly(log)
    ensures Orderly(log + [Remarked])
    ensures forall k :: HasWritten(log + [Remarked], k) <==> HasWritten(log, k)
  {
    var longer := log + [Remarked];
    WrittenPrefix(log, Remarked);
    forall j | 0 <= j < |longer| && longer[j].TookOff?
      ensures exists i :: WroteAt(longer, i, longer[j].n) && i < j && longer[i].r.rsub == longer[j].rsub
    {
      var i :| WroteAt(log, i, log[j].n) && i < j && log[i].r.rsub == log[j].rsub;
      assert WroteAt(longer, i, longer[j].n);
    }
  }

  lemma {:induction false} ReducedAppend(q: map<string, Queue>, a: seq<Entry>, b: seq<Entry>)
    ensures Reduced(q, a + b) == Reduced(Reduced(q, a), b)
    decreases |b|
  {
    if |b| == 0 {
      assert a + b == a;
    } else {
      assert (a + b)[..|a + b| - 1] == a + b[..|b| - 1];
      ReducedAppend(q, a, b[..|b| - 1]);
    }
  }

  lemma ReducedByNothing(q: map<string, Queue>)
    ensures Reduced(q, []) == q
  {
  }

  lemma ReducedByOne(q: map<string, Queue>, n: nat, r: Receipt)
    ensures Reduced(q, [Wrote(n, r), TookOff(r.rsub, n)]) ==
            if r.rsub in q then q[r.rsub := q[r.rsub] - {n}] else q
  {
    var log := [Wrote(n, r), TookOff(r.rsub, n)];
    assert log[..1] == [Wrote(n, r)];
    assert [Wrote(n, r)][..0] == [];
    assert Reduced(q, []) == q;
    assert Reduced(q, [Wrote(n, r)]) == q;
  }

  /** What is off the queue was written first: nothing the stream did not write leaves the queue. */
  lemma {:induction false} OnlyWrittenLeave(q: map<string, Queue>, log: seq<Entry>, rsub: string, n: nat)
    requires Orderly(log) && rsub in q && n in q[rsub]
    ensures rsub in Reduced(q, log)
    ensures n !in Reduced(q, log)[rsub] ==> HasWritten(log, n)
    ensures n in Reduced(q, log)[rsub] ==> Reduced(q, log)[rsub][n] == q[rsub][n]
    decreases |log|
  {
    hide Orderly, HasWritten;
    if |log| > 0 {
      var front := log[..|log| - 1];
      assert log == front + [log[|log| - 1]];
      FrontOrderly(front, log[|log| - 1]);
      OnlyWrittenLeave(q, front, rsub, n);
      WrittenPrefix(front, log[|log| - 1]);
      TakenWasWritten(log);
    }
  }

  lemma TakenWasWritten(log: seq<Entry>)
    requires Orderly(log) && |log| > 0
    ensures log[|log| - 1].TookOff? ==> HasWritten(log, log[|log| - 1].n)
  {
  }

  lemma FrontOrderly(front: seq<Entry>, e: Entry)
    requires Orderly(front + [e])
    ensures Orderly(front)
  {
    var log := front + [e];
    forall j | 0 <= j < |front| && front[j].TookOff?
      ensures exists i :: WroteAt(front, i, front[j].n) && i < j && front[i].r.rsub == front[j].rsub
    {
      assert log[j] == front[j];
      var i :| WroteAt(log, i, log[j].n) && i < j && log[i].r.rsub == log[j].rsub;
      assert WroteAt(front, i, front[j].n);
    }
    forall i, j | 0 <= i < j < |front| && front[i].Wrote? && front[j].Wrote? ensures front[i].n != front[j].n {
      assert log[i] == front[i] && log[j] == front[j];
    }
  }
}
