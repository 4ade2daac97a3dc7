/**
 Reassembling rows from the cell chunks of a Bigtable `ReadRows` stream.

 `Reader.Read` is the loop of `BigtableStore::read`. `Wire` describes what a server may
 send: values cut into pieces, the row key or qualifier left out while unchanged, rows
 abandoned by a reset, and responses cut anywhere.
 */
module Chunks {
  import opened Prelude

  datatype RowStatus = NoStatus | ResetRow(reset: bool) | CommitRow(commit: bool)

  datatype Chunk = Chunk(rowKey: Bytes, qualifier: Option<Bytes>, value: Bytes, valueSize: nat, status: RowStatus)

  /** The decoded row: what its cells hold, by qualifier. */
  type Row = map<Bytes, Bytes>

  datatype Keyed = Keyed(key: string, row: Row)

  // -- The receiver ---------------------------------------------------------

  /** What the loop carries from chunk to chunk. */
  datatype Progress = Progress(key: Bytes, qualifier: Bytes, row: Row, value: Bytes, out: seq<Keyed>)

  const START := Progress([], [], map[], [], [])

  /** One chunk. `None` when a committed key is not UTF-8. */
  function Step(decode: Bytes -> Option<string>, p: Progress, c: Chunk): Option<Progress> {
    if c.status == ResetRow(true) then
      Some(p.(row := map[], value := []))
    else
      var key := if c.rowKey != [] then c.rowKey else p.key;
      var qualifier := if c.qualifier.Some? then c.qualifier.value else p.qualifier;
      var value := p.value + c.value;
      var row := if c.valueSize == 0 then p.row[qualifier := value] else p.row;
      var rest := if c.valueSize == 0 then [] else value;
      if c.status != CommitRow(true) then Some(Progress(key, qualifier, row, rest, p.out))
      else if decode(key).None? then None
      else Some(Progress(key, qualifier, map[], rest, p.out + [Keyed(decode(key).value, row)]))
  }

  function Steps(decode: Bytes -> Option<string>, p: Progress, chunks: seq<Chunk>): Option<Progress>
    decreases |chunks|
  {
    if |chunks| == 0 then Some(p)
    else
      match Step(decode, p, chunks[0])
      case None => None
      case Some(next) => Steps(decode, next, chunks[1..])
  }

  lemma StepsCons(decode: Bytes -> Option<string>, p: Progress, c: Chunk, rest: seq<Chunk>)
    ensures Steps(decode, p, [c] + rest) ==
            match Step(decode, p, c)
            case None => None
            case Some(next) => Steps(decode, next, rest)
  {
    assert ([c] + rest)[1..] == rest;
  }

  lemma StepsNil(decode: Bytes -> Option<string>, p: Progress)
    ensures Steps(decode, p, []) == Some(p)
  {
  }

  lemma {:induction false} StepsAppend(decode: Bytes -> Option<string>, p: Progress, a: seq<Chunk>, b: seq<Chunk>)
    ensures Steps(decode, p, a + b) ==
            match Steps(decode, p, a)
            case None => None
            case Some(mid) => Steps(decode, mid, b)
    decreases |a|
  {
    if |a| == 0 {
      assert a + b == b;
    } else {
      assert (a + b)[1..] == a[1..] + b;
      match Step(decode, p, a[0])
      case None =>
      case Some(next) => StepsAppend(decode, next, a[1..], b);
    }
  }

  /** `read`: every chunk of every response, in order. */
  method Read(decode: Bytes -> Option<string>, responses: seq<seq<Chunk>>) returns (r: Option<seq<Keyed>>)
    ensures r == match Steps(decode, START, Flatten(responses))
                 case None => None
                 case Some(p) => Some(p.out)
  {
    var out: seq<Keyed> := [];
    var key: Bytes, qualifier: Bytes := [], [];
    var row: Row, value: Bytes := map[], [];
    var i := 0;
    hide Steps;
    ghost var all := Flatten(responses);
    assert responses[0..] == responses;
    while i < |responses|
      invariant 0 <= i <= |responses|
      invariant Steps(decode, START, all) ==
                Steps(decode, Progress(key, qualifier, row, value, out), Flatten(responses[i..]))
    {
      var chunks := responses[i];
      assert responses[i..][1..] == responses[i + 1..];
      assert chunks[0..] == chunks;
      var j := 0;
      while j < |chunks|
        invariant 0 <= j <= |chunks|
        invariant Steps(decode, START, all) ==
                  Steps(decode, Progress(key, qualifier, row, value, out), chunks[j..] + Flatten(responses[i + 1..]))
      {
        var chunk := chunks[j];
        ghost var before := Progress(key, qualifier, row, value, out);
        ghost var later := chunks[j + 1..] + Flatten(responses[i + 1..]);
        StepsCons(decode, before, chunk, later);
        assert chunks[j..] + Flatten(responses[i + 1..]) == [chunk] + later;
        j := j + 1;
        if chunk.status == ResetRow(true) {
          row := map[];
          value := [];
          continue;
        }
        if chunk.rowKey != [] {
          key := chunk.rowKey;
        }
        if chunk.qualifier.Some? {
          qualifier := chunk.qualifier.value;
        }
        value := value + chunk.value;
        if chunk.valueSize == 0 {
          row := row[qualifier := value];
          value := [];
        }
        if chunk.status == CommitRow(true) {
          var k := decode(key);
          if k.None? {
            return None;
          }
          out := out + [Keyed(k.value, row)];
          row := map[];
        }
      }
      assert chunks[j..] + Flatten(responses[i + 1..]) == Flatten(responses[i + 1..]);
      i := i + 1;
    }
    StepsNil(decode, Progress(key, qualifier, row, value, out));
    r := Some(out);
  }

  // -- The sender -----------------------------------------------------------

  /** Part of a value, with the choices the server makes when it sends it. */
  datatype Piece = Piece(value: Bytes, sendKey: bool, sendQualifier: bool, size: nat)

  /** A cell and the pieces its value is cut into. */
  datatype Cell = Cell(qualifier: Bytes, pieces: seq<Piece>)

  /** A row the server commits, or one it starts and abandons with a reset chunk. */
  datatype Item =
    | Committed(key: Bytes, cells: seq<Cell>)
    | Abandoned(key: Bytes, cells: seq<Cell>, partial: Cell, reset: Chunk)

  function Joined(pieces: seq<Piece>): Bytes {
    if |pieces| == 0 then [] else pieces[0].value + Joined(pieces[1..])
  }

  /** The row a list of cells describes. */
  function RowOf(start: Row, cells: seq<Cell>): Row
    decreases |cells|
  {
    if |cells| == 0 then start else RowOf(start[cells[0].qualifier := Joined(cells[0].pieces)], cells[1..])
  }

  /** One piece on the wire; `valueSize` is 0 exactly on the last piece of a complete value. */
  function PieceChunk(key: Bytes, qualifier: Bytes, p: Piece, last: bool, commit: bool): Chunk {
    Chunk(
      if p.sendKey then key else [],
      if p.sendQualifier then Some(qualifier) else None,
      p.value,
      if last then 0 else p.size + 1,
      if commit then CommitRow(true) else NoStatus)
  }

  /** `whole`: the value ends with these pieces. `commit`: so does the row. */
  function PieceChunks(key: Bytes, qualifier: Bytes, pieces: seq<Piece>, whole: bool, commit: bool): seq<Chunk> {
    if |pieces| == 0 then []
    else
      var last := whole && |pieces| == 1;
      [PieceChunk(key, qualifier, pieces[0], last, last && commit)]
      + PieceChunks(key, qualifier, pieces[1..], whole, commit)
  }

  function CellChunks(key: Bytes, cells: seq<Cell>, commit: bool): seq<Chunk> {
    if |cells| == 0 then []
    else
      PieceChunks(key, cells[0].qualifier, cells[0].pieces, true, commit && |cells| == 1)
      + CellChunks(key, cells[1..], commit)
  }

  function ItemChunks(item: Item): seq<Chunk> {
    match item
    case Committed(key, cells) => CellChunks(key, cells, true)
    case Abandoned(key, cells, partial, reset) =>
      CellChunks(key, cells, false) + PieceChunks(key, partial.qualifier, partial.pieces, false, false) + [reset]
  }

  /** A whole stream: items, then a row the stream breaks off in. */
  function Wire(items: seq<Item>, key: Bytes, cells: seq<Cell>, partial: Cell): seq<Chunk> {
    if |items| == 0 then
      CellChunks(key, cells, false) + PieceChunks(key, partial.qualifier, partial.pieces, false, false)
    else ItemChunks(items[0]) + Wire(items[1..], key, cells, partial)
  }

  /** The key and qualifier last sent, which a later chunk may leave out. */
  datatype Last = Last(key: Bytes, qualifier: Bytes)

  predicate LegalPiece(last: Last, key: Bytes, qualifier: Bytes, p: Piece) {
    key != []
    && (!p.sendKey ==> last.key == key)
    && (!p.sendQualifier ==> last.qualifier == qualifier)
  }

  predicate LegalPieces(last: Last, key: Bytes, qualifier: Bytes, pieces: seq<Piece>)
    decreases |pieces|
  {
    |pieces| > 0 ==>
      LegalPiece(last, key, qualifier, pieces[0])
      && LegalPieces(Last(key, qualifier), key, qualifier, pieces[1..])
  }

  /** What is last sent once these cells are out. */
  function AfterCells(last: Last, key: Bytes, cells: seq<Cell>): Last {
    if |cells| == 0 then last else Last(key, cells[|cells| - 1].qualifier)
  }

  predicate LegalCells(last: Last, key: Bytes, cells: seq<Cell>)
    decreases |cells|
  {
    |cells| > 0 ==>
      |cells[0].pieces| > 0
      && LegalPieces(last, key, cells[0].qualifier, cells[0].pieces)
      && LegalCells(Last(key, cells[0].qualifier), key, cells[1..])
  }

  function AfterPieces(last: Last, key: Bytes, cell: Cell): Last {
    if |cell.pieces| == 0 then last else Last(key, cell.qualifier)
  }

  predicate LegalPartial(last: Last, key: Bytes, cells: seq<Cell>, partial: Cell) {
    LegalCells(last, key, cells)
    && LegalPieces(AfterCells(last, key, cells), key, partial.qualifier, partial.pieces)
  }

  function AfterItem(last: Last, item: Item): Last {
    match item
    case Committed(key, cells) => AfterCells(last, key, cells)
    case Abandoned(key, cells, partial, _) => AfterPieces(AfterCells(last, key, cells), key, partial)
  }

  predicate LegalItem(decode: Bytes -> Option<string>, last: Last, item: Item) {
    match item
    case Committed(key, cells) => |cells| > 0 && decode(key).Some? && LegalCells(last, key, cells)
    case Abandoned(key, cells, partial, reset) =>
      LegalPartial(last, key, cells, partial) && reset.status == ResetRow(true)
  }

  predicate Legal(decode: Bytes -> Option<string>, last: Last, items: seq<Item>, key: Bytes, cells: seq<Cell>,
    partial: Cell)
    decreases |items|
  {
    if |items| == 0 then LegalPartial(last, key, cells, partial)
    else LegalItem(decode, last, items[0]) && Legal(decode, AfterItem(last, items[0]), items[1..], key, cells, partial)
  }

  /** What an item adds to the rows the server commits. */
  function ItemRows(decode: Bytes -> Option<string>, item: Item): seq<Keyed> {
    if item.Committed? && decode(item.key).Some? then [Keyed(decode(item.key).value, RowOf(map[], item.cells))] else []
  }

  function CommittedRows(decode: Bytes -> Option<string>, items: seq<Item>): seq<Keyed> {
    if |items| == 0 then [] else ItemRows(decode, items[0]) + CommittedRows(decode, items[1..])
  }

  // -- Reassembly -----------------------------------------------------------

  /** What the receiver holds after the pieces of one value. */
  function PiecesDone(
    decode: Bytes -> Option<string>, p: Progress, key: Bytes, qualifier: Bytes, value: Bytes, whole: bool,
    commit: bool): Progress
    requires commit ==> decode(key).Some?
  {
    var row := p.row[qualifier := value];
    if !whole then Progress(key, qualifier, p.row, value, p.out)
    else if commit then Progress(key, qualifier, map[], [], p.out + [Keyed(decode(key).value, row)])
    else Progress(key, qualifier, row, [], p.out)
  }

  lemma PieceRead(
    decode: Bytes -> Option<string>, p: Progress, key: Bytes, qualifier: Bytes, piece: Piece, last: bool, commit: bool)
    requires LegalPiece(Last(p.key, p.qualifier), key, qualifier, piece)
    requires commit ==> last && decode(key).Some?
    ensures Step(decode, p, PieceChunk(key, qualifier, piece, last, commit))
         == Some(PiecesDone(decode, p, key, qualifier, p.value + piece.value, last, commit))
  {
  }

  lemma {:induction false} PiecesRead(
    decode: Bytes -> Option<string>, p: Progress, key: Bytes, qualifier: Bytes, pieces: seq<Piece>, whole: bool,
    commit: bool)
    requires |pieces| > 0 && LegalPieces(Last(p.key, p.qualifier), key, qualifier, pieces)
    requires commit ==> decode(key).Some?
    ensures Steps(decode, p, PieceChunks(key, qualifier, pieces, whole, commit))
         == Some(PiecesDone(decode, p, key, qualifier, p.value + Joined(pieces), whole, commit))
    decreases |pieces|
  {
    hide Steps, Step, PieceChunk;
    var last := whole && |pieces| == 1;
    var rest := PieceChunks(key, qualifier, pieces[1..], whole, commit);
    PieceRead(decode, p, key, qualifier, pieces[0], last, last && commit);
    StepsCons(decode, p, PieceChunk(key, qualifier, pieces[0], last, last && commit), rest);
    if |pieces| == 1 {
      assert Joined(pieces) == pieces[0].value;
      StepsNil(decode, PiecesDone(decode, p, key, qualifier, p.value + pieces[0].value, last, last && commit));
    } else {
      var next := Progress(key, qualifier, p.row, p.value + pieces[0].value, p.out);
      PiecesRead(decode, next, key, qualifier, pieces[1..], whole, commit);
      assert p.value + Joined(pieces) == next.value + Joined(pieces[1..]);
    }
  }

  lemma {:induction false} CellsRead(
    decode: Bytes -> Option<string>, p: Progress, key: Bytes, cells: seq<Cell>, commit: bool)
    requires p.value == [] && LegalCells(Last(p.key, p.qualifier), key, cells)
    requires commit ==> |cells| > 0 && decode(key).Some?
    ensures var after := AfterCells(Last(p.key, p.qualifier), key, cells);
            var row := RowOf(p.row, cells);
            Steps(decode, p, CellChunks(key, cells, commit)) == Some(
              if commit then Progress(after.key, after.qualifier, map[], [], p.out + [Keyed(decode(key).value, row)])
              else Progress(after.key, after.qualifier, row, [], p.out))
    decreases |cells|
  {
    hide Steps, Step, PieceChunks, LegalPieces;
    if |cells| == 0 {
      StepsNil(decode, p);
    } else {
      var ends := commit && |cells| == 1;
      var value := Joined(cells[0].pieces);
      var head := PieceChunks(key, cells[0].qualifier, cells[0].pieces, true, ends);
      PiecesRead(decode, p, key, cells[0].qualifier, cells[0].pieces, true, ends);
      assert p.value + value == value;
      StepsAppend(decode, p, head, CellChunks(key, cells[1..], commit));
      if |cells| == 1 {
        assert RowOf(p.row, cells) == p.row[cells[0].qualifier := value];
        StepsNil(decode, PiecesDone(decode, p, key, cells[0].qualifier, value, true, ends));
      } else {
        CellsRead(decode, PiecesDone(decode, p, key, cells[0].qualifier, value, true, false), key, cells[1..], commit);
      }
    }
  }

  lemma PartialRead(decode: Bytes -> Option<string>, p: Progress, key: Bytes, cells: seq<Cell>, partial: Cell)
    requires p.value == [] && LegalPartial(Last(p.key, p.qualifier), key, cells, partial)
    ensures var pieces := PieceChunks(key, partial.qualifier, partial.pieces, false, false);
            var after := AfterPieces(AfterCells(Last(p.key, p.qualifier), key, cells), key, partial);
            var end := Steps(decode, p, CellChunks(key, cells, false) + pieces);
            end.Some? && end.value.out == p.out && Last(end.value.key, end.value.qualifier) == after
  {
    hide Steps, Step, CellChunks, LegalCells, RowOf;
    var pieces := PieceChunks(key, partial.qualifier, partial.pieces, false, false);
    CellsRead(decode, p, key, cells, false);
    var mid := Steps(decode, p, CellChunks(key, cells, false)).value;
    StepsAppend(decode, p, CellChunks(key, cells, false), pieces);
    StepsNil(decode, mid);
    if |partial.pieces| > 0 {
      PiecesRead(decode, mid, key, partial.qualifier, partial.pieces, false, false);
    }
  }

  lemma ItemRead(decode: Bytes -> Option<string>, p: Progress, item: Item)
    requires p.row == map[] && p.value == []
    requires LegalItem(decode, Last(p.key, p.qualifier), item)
    ensures var after := AfterItem(Last(p.key, p.qualifier), item);
            Steps(decode, p, ItemChunks(item))
            == Some(Progress(after.key, after.qualifier, map[], [], p.out + ItemRows(decode, item)))
  {
    hide Steps, CellChunks, PieceChunks, LegalCells, LegalPartial, RowOf, AfterCells, AfterPieces;
    match item {
      case Committed(key, cells) => CellsRead(decode, p, key, cells, true);
      case Abandoned(key, cells, partial, reset) =>
        var sent := CellChunks(key, cells, false) + PieceChunks(key, partial.qualifier, partial.pieces, false, false);
        PartialRead(decode, p, key, cells, partial);
        StepsAppend(decode, p, sent, [reset]);
        StepsCons(decode, Steps(decode, p, sent).value, reset, []);
        StepsNil(decode, Step(decode, Steps(decode, p, sent).value, reset).value);
        assert [reset] == [reset] + [];
        assert p.out + ItemRows(decode, item) == p.out;
    }
  }

  lemma {:induction false} WireRead(
    decode: Bytes -> Option<string>, p: Progress, items: seq<Item>, key: Bytes, cells: seq<Cell>, partial: Cell)
    requires p.row == map[] && p.value == []
    requires Legal(decode, Last(p.key, p.qualifier), items, key, cells, partial)
    ensures var end := Steps(decode, p, Wire(items, key, cells, partial));
            end.Some? && end.value.out == p.out + CommittedRows(decode, items)
    decreases |items|
  {
    hide Steps, ItemChunks, CellChunks, PieceChunks, LegalItem, LegalPartial, ItemRows, AfterItem;
    if |items| == 0 {
      PartialRead(decode, p, key, cells, partial);
    } else {
      var head, rest := ItemRows(decode, items[0]), CommittedRows(decode, items[1..]);
      var after := AfterItem(Last(p.key, p.qualifier), items[0]);
      var mid := Progress(after.key, after.qualifier, map[], [], p.out + head);
      ItemRead(decode, p, items[0]);
      StepsAppend(decode, p, ItemChunks(items[0]), Wire(items[1..], key, cells, partial));
      WireRead(decode, mid, items[1..], key, cells, partial);
      assert (p.out + head) + rest == p.out + (head + rest);
    }
  }

  /**
   However a server cuts a legal stream into responses, the loop returns exactly the
   committed rows, in order, with their values whole; abandoned rows leave no trace.
   */
  lemma ReassemblyExact(
    decode: Bytes -> Option<string>, items: seq<Item>, key: Bytes, cells: seq<Cell>, partial: Cell,
    responses: seq<seq<Chunk>>)
    requires Legal(decode, Last([], []), items, key, cells, partial)
    requires Flatten(responses) == Wire(items, key, cells, partial)
    ensures var end := Steps(decode, START, Flatten(responses));
            end.Some? && end.value.out == CommittedRows(decode, items)
  {
    WireRead(decode, START, items, key, cells, partial);
  }
}
