/**
 Receipt sequence numbers: `next_seq` and its compare-and-swap loop.

 `fetch_update` loads the last number, computes the next one from it and a clock reading,
 and swaps only if the last number has not changed; otherwise it tries again.
 */
module Sequence {
  /** The number after `last` when the clock shows `nowMs`. */
  function NextSeq(last: nat, nowMs: nat): (n: nat)
    ensures n > last && n >= nowMs * 1000
    ensures n == nowMs * 1000 || n == last + 1
  {
    if nowMs * 1000 > last + 1 then nowMs * 1000 else last + 1
  }

  /** A caller: it has read its clock, or has also loaded the counter, or is done. */
  datatype Caller =
    | Clocked(nowMs: nat)
    | Loaded(nowMs: nat, last: nat)
    | Returned(result: nat)

  /** The shared counter, the callers, and the results in the order the swaps took effect. */
  datatype Counter = Counter(last: nat, callers: map<nat, Caller>, swapped: seq<nat>)

  /** A new caller reads the clock, which may show anything. */
  ghost predicate Enter(c: Counter, d: Counter, who: nat, nowMs: nat) {
    who !in c.callers && d == c.(callers := c.callers[who := Clocked(nowMs)])
  }

  ghost predicate Load(c: Counter, d: Counter, who: nat) {
    who in c.callers && c.callers[who].Clocked?
    && d == c.(callers := c.callers[who := Loaded(c.callers[who].nowMs, c.last)])
  }

  /** The swap succeeds only on the value loaded; a failed swap loads again. */
  ghost predicate Swap(c: Counter, d: Counter, who: nat) {
    who in c.callers && c.callers[who].Loaded?
    && var p := c.callers[who];
       if p.last == c.last then
         var n := NextSeq(p.last, p.nowMs);
         d == Counter(n, c.callers[who := Returned(n)], c.swapped + [n])
       else d == c.(callers := c.callers[who := Loaded(p.nowMs, c.last)])
  }

  datatype Move = Enters(who: nat, nowMs: nat) | Loads(who: nat) | Swaps(who: nat)

  ghost predicate Moves(c: Counter, m: Move, d: Counter) {
    match m
    case Enters(who, nowMs) => Enter(c, d, who, nowMs)
    case Loads(who) => Load(c, d, who)
    case Swaps(who) => Swap(c, d, who)
  }

  ghost predicate Next(c: Counter, d: Counter) {
    exists m :: Moves(c, m, d)
  }

  ghost predicate IsRun(run: seq<Counter>) {
    |run| > 0 && run[0] == Counter(0, map[], [])
    && forall i :: 0 <= i < |run| - 1 ==> Next(run[i], run[i + 1])
  }

  predicate Increasing(s: seq<nat>) {
    forall i, j :: 0 <= i < j < |s| ==> s[i] < s[j]
  }

  ghost predicate Inv(c: Counter) {
    Increasing(c.swapped)
    && (forall i :: 0 <= i < |c.swapped| ==> c.swapped[i] <= c.last)
    && (forall who :: who in c.callers && c.callers[who].Returned? ==> c.callers[who].result in c.swapped)
    && (forall v, w :: v in c.callers && w in c.callers && v != w && c.callers[v].Returned? && c.callers[w].Returned?
          ==> c.callers[v].result != c.callers[w].result)
  }

  lemma NextKeepsInv(c: Counter, d: Counter)
    requires Inv(c) && Next(c, d)
    ensures Inv(d)
  {
    var m :| Moves(c, m, d);
    if |d.swapped| > |c.swapped| {
      assert d.swapped == c.swapped + [d.last] && d.last > c.last;
    } else {
      assert d.swapped == c.swapped;
    }
  }

  /**
   For any number of callers, any retries and any clocks, the results increase strictly in
   the order the swaps take effect, and no two callers get the same number.
   */
  lemma {:induction false} ResultsIncrease(run: seq<Counter>)
    requires IsRun(run)
    ensures Inv(run[|run| - 1])
    decreases |run|
  {
    if |run| > 1 {
      var before := run[..|run| - 1];
      assert forall i :: 0 <= i < |before| - 1 ==> Next(before[i], before[i + 1]) by {
        forall i | 0 <= i < |before| - 1 ensures Next(before[i], before[i + 1]) {
          assert before[i] == run[i] && before[i + 1] == run[i + 1];
        }
      }
      ResultsIncrease(before);
      NextKeepsInv(run[|run| - 2], run[|run| - 1]);
    }
  }
}
