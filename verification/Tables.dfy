/**
 The Bigtable table: rows by key string, in lexicographic order. Each method is one RPC and
 so one atomic step. The ghost `view` indexes the same rows by structured key; it is what
 the store is proved against.
 */
module Tables {
  import opened Prelude
  import opened Types
  import opened Keys

  type View = map<Key, Row>

  /** A row after its cells are optionally cleared and `cells` are set. A row without cells is gone. */
  function Mutated(view: View, k: Key, clear: bool, cells: Row): View {
    var row := (if clear || k !in view then map[] else view[k]) + cells;
    if row == map[] then view - {k} else view[k := row]
  }

  /** The latest cell `col` of row `k` exists and, if a value is given, matches it exactly. */
  predicate Holds(view: View, k: Key, col: string, value: Option<string>) {
    k in view && col in view[k] && (value.Some? ==> view[k][col] == value.value)
  }

  /** Cells written to an absent row are the row. */
  lemma NewRow(view: View, k: Key, cells: Row)
    requires k !in view && cells != map[]
    ensures Mutated(view, k, false, cells) == view[k := cells]
  {
    var none: Row := map[];
    assert none + cells == cells;
  }

  /** Cells written to a cleared row are the row. */
  lemma ReplacedRow(view: View, k: Key, cells: Row)
    requires cells != map[]
    ensures Mutated(view, k, true, cells) == view[k := cells]
  {
    var none: Row := map[];
    assert none + cells == cells;
  }

  lemma ClearedRow(view: View, k: Key)
    ensures Mutated(view, k, true, map[]) == view - {k}
  {
    var none: Row := map[];
    assert none + none == none;
  }

  /** `rows` are the rows of `view` under their encoded keys. */
  ghost predicate Indexes(view: View, rows: map<string, Row>) {
    (forall k :: k in view ==> Good(k) && Encode(k) in rows && rows[Encode(k)] == view[k])
    && (forall s :: s in rows ==> Encoded(view, s))
  }

  ghost predicate Encoded(view: View, s: string) {
    exists k :: k in view && Encode(k) == s
  }

  lemma IndexesAt(view: View, rows: map<string, Row>, k: Key)
    requires Indexes(view, rows) && Good(k)
    ensures Encode(k) in rows <==> k in view
    ensures k in view ==> rows[Encode(k)] == view[k]
  {
    hide Encode, Good;
    if Encode(k) in rows {
      assert Encoded(view, Encode(k));
      var j :| j in view && Encode(j) == Encode(k);
      EncodeInjective(j, k);
    }
  }

  lemma PutIndexes(view: View, rows: map<string, Row>, k: Key, row: Row)
    requires Indexes(view, rows) && Good(k)
    ensures Indexes(view[k := row], rows[Encode(k) := row])
  {
    hide Encode, Good;
    forall j | j in view && Encode(j) == Encode(k) ensures j == k {
      EncodeInjective(j, k);
    }
    var written, seen := rows[Encode(k) := row], view[k := row];
    forall s | s in written ensures Encoded(seen, s) {
      if s != Encode(k) {
        assert Encoded(view, s);
        var j :| j in view && Encode(j) == s;
        assert j in seen;
      } else {
        assert k in seen;
      }
    }
  }

  lemma DropIndexes(view: View, rows: map<string, Row>, k: Key)
    requires Indexes(view, rows) && Good(k)
    ensures Indexes(view - {k}, rows - {Encode(k)})
  {
    hide Encode, Good;
    forall j | j in view && Encode(j) == Encode(k) ensures j == k {
      EncodeInjective(j, k);
    }
    forall s | s in rows - {Encode(k)} ensures Encoded(view - {k}, s) {
      assert Encoded(view, s);
      var j :| j in view && Encode(j) == s;
      assert j in view - {k};
    }
  }

  class Table {
    var rows: map<string, Row>
    ghost var view: View

    ghost predicate Valid()
      reads this
    {
      Indexes(view, rows)
    }

    constructor ()
      ensures Valid() && view == map[]
    {
      rows, view := map[], map[];
    }

    /** `mutate`: one row, atomically. */
    method Mutate(key: string, clear: bool, cells: Row, ghost k: Key)
      requires Valid() && Good(k) && key == Encode(k)
      modifies this
      ensures Valid() && view == Mutated(old(view), k, clear, cells)
    {
      hide Encode, Good, Indexes;
      IndexesAt(view, rows, k);
      var row := (if clear || key !in rows then map[] else rows[key]) + cells;
      PutIndexes(view, rows, k, row);
      DropIndexes(view, rows, k);
      if row == map[] {
        rows := rows - {key};
        view := view - {k};
      } else {
        rows := rows[key := row];
        view := view[k := row];
      }
    }

    /** `put`: set cells and keep the others. */
    method Put(key: string, cells: Row, ghost k: Key)
      requires Valid() && Good(k) && key == Encode(k)
      modifies this
      ensures Valid() && view == Mutated(old(view), k, false, cells)
    {
      Mutate(key, false, cells, k);
    }

    /** `delete`: also when there is no such row. */
    method Delete(key: string, ghost k: Key)
      requires Valid() && Good(k) && key == Encode(k)
      modifies this
      ensures Valid() && view == old(view) - {k}
    {
      var none: Row := map[];
      assert none + none == none;
      Mutate(key, true, none, k);
    }

    /** `mutate_if`: predicate and mutation are one atomic step. A pattern that is not accepted fails the call. */
    method MutateIf(key: string, col: string, value: Option<string>, clear: bool, cells: Row, ghost k: Key)
      returns (matched: Option<bool>)
      requires Valid() && Good(k) && key == Encode(k)
      modifies this
      ensures Valid() && (matched.None? <==> value.Some? && !Ascii(value.value))
      ensures matched.Some? ==> matched.value == Holds(old(view), k, col, value)
      ensures view == if matched == Some(true) then Mutated(old(view), k, clear, cells) else old(view)
    {
      hide Encode, Good, Indexes, Matches, Exact, Accepted, Ascii;
      IndexesAt(view, rows, k);
      var found := key in rows && col in rows[key];
      if value.Some? {
        ExactAccepted(value.value);
        if !Accepted(Exact(value.value)) {
          return None;
        }
        if found {
          ExactMatches(value.value, rows[key][col]);
          found := Matches(Exact(value.value), rows[key][col]);
        }
      }
      if found {
        Mutate(key, clear, cells, k);
      }
      matched := Some(found);
    }

    /** `get`: one row. */
    method Get(key: string, ghost k: Key) returns (row: Option<Row>)
      requires Valid() && Good(k) && key == Encode(k)
      ensures row == if k in view then Some(view[k]) else None
    {
      hide Encode, Good, Indexes;
      IndexesAt(view, rows, k);
      row := if key in rows then Some(rows[key]) else None;
    }

    /** The row keys in `[start, end)`, in order. */
    method KeysIn(start: string, end: string) returns (list: seq<string>)
      ensures forall s :: s in list <==> s in rows && InRange(s, start, end)
      ensures forall i, j :: 0 <= i < j < |list| ==> Below(list[i], list[j])
    {
      var todo := set s | s in rows && InRange(s, start, end);
      ghost var all := todo;
      list := [];
      while todo != {}
        invariant todo <= all
        invariant forall s :: s in list <==> s in all - todo
        invariant forall i, j :: 0 <= i < j < |list| ==> Below(list[i], list[j])
        invariant forall i, s :: 0 <= i < |list| && s in todo ==> Below(list[i], s)
        decreases |todo|
      {
        var least := Least(todo);
        list := list + [least];
        todo := todo - {least};
      }
    }

    /** `read`: the rows of a scan, in key order. `ks` are their structured keys. */
    method Read(start: string, end: string, ghost s: Scan) returns (out: seq<(string, Row)>, ghost ks: seq<Key>)
      requires Valid() && GoodScan(s) && start == ScanStart(s) && end == ScanEnd(s)
      ensures forall i :: 0 <= i < |out| ==>
                InRange(out[i].0, start, end) && out[i].0 in rows && rows[out[i].0] == out[i].1
      ensures forall i, j :: 0 <= i < j < |out| ==> Below(out[i].0, out[j].0)
      ensures |out| == |ks|
      ensures forall i :: 0 <= i < |ks| ==>
        Good(ks[i]) && ks[i] in view && Selects(s, ks[i]) && out[i] == (Encode(ks[i]), view[ks[i]])
      ensures forall k :: k in view && Selects(s, k) ==> k in ks
      ensures forall i, j :: 0 <= i < j < |ks| ==> Below(Encode(ks[i]), Encode(ks[j]))
    {
      hide Encode, Good, Selects, InRange, ScanStart, ScanEnd, Below;
      var list := KeysIn(start, end);
      out, ks := [], [];
      for i := 0 to |list|
        invariant |out| == |ks| == i
        invariant forall j :: 0 <= j < i ==>
          ks[j] in view && Encode(ks[j]) == list[j] && out[j] == (list[j], view[ks[j]])
      {
        assert list[i] in list;
        assert Encoded(view, list[i]);
        ghost var k :| k in view && Encode(k) == list[i];
        out := out + [(list[i], rows[list[i]])];
        ks := ks + [k];
      }
      forall i | 0 <= i < |ks| ensures Selects(s, ks[i]) {
        assert list[i] in list;
        ScanExact(s, ks[i]);
      }
      forall k | k in view && Selects(s, k) ensures k in ks {
        ScanExact(s, k);
        assert Encode(k) in list;
        var i :| 0 <= i < |list| && list[i] == Encode(k);
        EncodeInjective(ks[i], k);
      }
    }
  }

  /** The least string of a set. */
  method Least(strings: set<string>) returns (least: string)
    requires strings != {}
    ensures least in strings && forall s :: s in strings - {least} ==> Below(least, s)
  {
    least :| least in strings;
    var rest := strings - {least};
    while rest != {}
      invariant least in strings && rest <= strings - {least}
      invariant forall s :: s in strings - {least} - rest ==> Below(least, s)
      decreases |rest|
    {
      var s :| s in rest;
      rest := rest - {s};
      BelowTotal(s, least);
      if Below(s, least) {
        forall t | t in strings - {s} - rest ensures Below(s, t) {
          if t != least {
            BelowTransitive(s, least, t);
          }
        }
        least := s;
      }
    }
  }
}
