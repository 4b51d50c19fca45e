/** Columns of a board: the board-scoped copy of the repositioning walk, which writes
    positions only, `Column.make`, which appends at the end, and `Column.moveTo`. */
module Columns {
  import opened Entities
  import opened JsText
  import opened Validation
  import opened Store

  // The messages of the rejections and throws.
  const InvalidBoard := "Invalid board"
  const InvalidColumn := "Invalid column"
  const BoardMissing := "Card is not associated with a valid board"
  const TitleEmpty := "Column title may not be empty"
  const TitleLength := "Column title is either too long or too short (1..255 characters)"
  const OffsetNotNumeric := "Position offset must be numeric"

  /** The creation data `make` reads; `wipLimit` is None when null or missing. */
  datatype ColumnData = ColumnData(title: Option<string>, wipLimit: Option<real>)

  /** `isColumn`. */
  predicate IsColumn(obj: Obj)
  {
    IsPersisted(obj, ColumnModel)
  }

  /** The refusal of `saveColumnPositions`: the board, then the column. */
  function PositionsRefusal(board: Obj, column: Obj): (e: Option<string>)
    ensures e.None? <==> IsPersisted(board, BoardModel) && IsColumn(column)
    ensures !IsPersisted(board, BoardModel) ==> e == Some(InvalidBoard)
    ensures IsPersisted(board, BoardModel) && !IsColumn(column) ==> e == Some(InvalidColumn)
  {
    if !IsPersisted(board, BoardModel) then Some(InvalidBoard)
    else if !IsColumn(column) then Some(InvalidColumn)
    else None
  }

  /** `saveColumnPosition`: one column's position, never its BoardId. */
  method SaveColumnPosition(t: Table, column: Obj, position: Rank) returns (r: Outcome)
    modifies t`rows
    ensures (r, t.rows) == WriteEffect(old(t.rows), t.faulty, if IsColumn(column) then None else Some(InvalidColumn),
                                       IdOf(column), position, 0, false)
  {
    if !IsColumn(column) {
      return Rejected(Message(InvalidColumn));
    }
    if position.NotNumber? {
      return Rejected(Message(NotNumeric));
    }
    var p := position.n;
    if p < 0 {
      p := 0;
    }
    r := t.Save(column.id, p, 0, false);
  }

  /** `saveColumnPositions(board, column, position, transaction)` on the columns table;
      `sibs` is the read of the board's other columns by ascending position. */
  method SaveColumnPositions(t: Table, board: Obj, column: Obj, position: Rank, sibs: seq<Id>) returns (r: Outcome)
    requires Proceeds(PositionsRefusal(board, column), position) ==> IsSiblingRead(t.rows, board.id, column.id, sibs)
    modifies t`rows
    ensures (r, t.rows) == Repositioned(old(t.rows), t.faulty, PositionsRefusal(board, column),
                                        IdOf(board), IdOf(column), position, false, sibs)
  {
    if !IsPersisted(board, BoardModel) {
      return Rejected(Message(InvalidBoard));
    }
    if !IsColumn(column) {
      return Rejected(Message(InvalidColumn));
    }
    if position.NotNumber? {
      return Rejected(Message(NotNumeric));
    }
    var p := position.n;
    if p < 0 {
      p := 0;
    }
    r := t.Walk(board.id, column.id, p, false, sibs);
  }

  /** The messages `validate()` reports for a column with this title and WIP limit. */
  function ColumnMessages(title: string, wipLimit: Option<real>): seq<string>
  {
    TextMessages(title, TitleEmpty, TitleLength, 1, 255)
      + MinMessages(wipLimit, 1.0)
  }

  /** What `make` ends with: the board check, the title defaulted to '' and validated,
      then the new column stored under the board at `max + 1`. */
  function MakeEffect(rows: map<Id, Row>, board: Obj, data: ColumnData, max: Option<int>, newId: Id): (Outcome, map<Id, Row>)
  {
    var title := if data.title.Some? then data.title.value else "";
    if !IsPersisted(board, BoardModel) then (Rejected(Message(InvalidBoard)), rows)
    else if ColumnMessages(title, data.wipLimit) != [] then (Rejected(Invalid(ColumnMessages(title, data.wipLimit))), rows)
    else (Resolved, rows[newId := Row(board.id, NextPosition(max))])
  }

  /** `Column.make(board, columnData)`; `max` is what `max('position')` over the board's
      columns returns and `newId` the key the new row receives. */
  method Make(t: Table, board: Obj, data: ColumnData, max: Option<int>, newId: Id) returns (r: Outcome)
    requires IsPersisted(board, BoardModel) ==> IsMaxPosition(t.rows, board.id, max)
    requires newId !in t.rows
    modifies t`rows
    ensures (r, t.rows) == MakeEffect(old(t.rows), board, data, max, newId)
  {
    if !IsPersisted(board, BoardModel) {
      return Rejected(Message(InvalidBoard));
    }
    var title := if data.title.Some? then data.title.value else "";
    var messages := ColumnMessages(title, data.wipLimit);
    if messages != [] {
      return Rejected(Invalid(messages));
    }
    var position := if max.None? then 1 else max.value + 1;
    t.rows := t.rows[newId := Row(board.id, position)];
    r := Resolved;
  }

  /** What `moveTo` ends with: the offset check and the clamp to 1, the board lookup,
      then `saveColumnPositions` in a managed transaction. */
  function MoveEffect(rows: map<Id, Row>, faulty: set<Id>, column: Obj, board: Obj, offset: Rank, sibs: seq<Id>): (Outcome, map<Id, Row>)
  {
    if offset.NotNumber? then (Rejected(Message(OffsetNotNumeric)), rows)
    else if !IsPersisted(board, BoardModel) then (Rejected(Message(BoardMissing)), rows)
    else Transacted(rows, Repositioned(rows, faulty, PositionsRefusal(board, column), board.id, IdOf(column),
                                       Rank(Max(offset.n, 1)), false, sibs))
  }

  /** `column.moveTo(offset)`; `board` is what `getBoard()` resolves to and `sibs` the
      read of its other columns. */
  method MoveTo(t: Table, column: Obj, board: Obj, offset: Rank, sibs: seq<Id>) returns (r: Outcome)
    requires offset.Rank? && IsPersisted(board, BoardModel) && IsColumn(column) ==> IsSiblingRead(t.rows, board.id, column.id, sibs)
    modifies t`rows
    ensures (r, t.rows) == MoveEffect(old(t.rows), t.faulty, column, board, offset, sibs)
  {
    if offset.NotNumber? {
      return Rejected(Message(OffsetNotNumeric));
    }
    var k := offset.n;
    if k < 1 {
      k := 1;
    }
    if !IsPersisted(board, BoardModel) {
      return Rejected(Message(BoardMissing));
    }
    var snapshot := t.rows;
    r := SaveColumnPositions(t, board, column, Rank(k), sibs);
    if r != Resolved {
      t.rows := snapshot;
    }
  }

  /** `make` refuses an invalid board and an empty or blank title before anything is
      read or written. */
  lemma MakeRefuses(rows: map<Id, Row>, board: Obj, data: ColumnData, max: Option<int>, newId: Id)
    ensures var (r, after) := MakeEffect(rows, board, data, max, newId);
      && (!IsPersisted(board, BoardModel) ==> r == Rejected(Message(InvalidBoard)))
      && (IsPersisted(board, BoardModel) && (data.title.None? || Blank(data.title.value)) ==>
            r.Rejected? && r.error.Invalid? && r.error.messages[0] == TitleEmpty)
      && (r != Resolved ==> after == rows)
  {
  }

  /** A created column is placed after every column of its board, at 1 on an empty board,
      and a board whose columns were on 1..n has them on 1..n+1 afterwards. */
  lemma MakeAppends(rows: map<Id, Row>, board: Obj, data: ColumnData, max: Option<int>, newId: Id, n: nat)
    requires IsPersisted(board, BoardModel) ==> IsMaxPosition(rows, board.id, max)
    requires newId !in rows
    requires MakeEffect(rows, board, data, max, newId).0 == Resolved
    ensures var after := MakeEffect(rows, board, data, max, newId).1;
      && newId in after && after[newId].parent == board.id
      && (forall id :: id in rows && rows[id].parent == board.id ==> rows[id].position < after[newId].position)
      && (max.None? ==> after[newId].position == 1)
      && (forall id :: id in rows ==> id in after && after[id] == rows[id])
      && (Contiguous(rows, board.id, {}, n) ==> Contiguous(after, board.id, {}, n + 1))
  {
    var after := MakeEffect(rows, board, data, max, newId).1;
    forall id | id in rows && rows[id].parent == board.id ensures rows[id].position < after[newId].position {
      NextPositionAbove(rows, board.id, max, id);
    }
    if Contiguous(rows, board.id, {}, n) {
      AppendContiguous(rows, board.id, n, max, newId);
    }
  }

  /** A move that resolves leaves the board's columns on 1..N, the moved column at
      min(max(k, 1), N), the others in their old order, and no BoardId changed; one that
      does not leaves the table as it was. */
  lemma MoveArranges(rows: map<Id, Row>, faulty: set<Id>, column: Obj, board: Obj, offset: Rank, sibs: seq<Id>)
    requires offset.Rank? && IsPersisted(board, BoardModel) && IsColumn(column)
    requires IsSiblingRead(rows, board.id, column.id, sibs)
    requires column.id in rows && rows[column.id].parent == board.id
    ensures var (r, after) := MoveEffect(rows, faulty, column, board, offset, sibs);
      && (r != Resolved ==> after == rows)
      && (r == Resolved ==>
            && Arranged(after, board.id, column.id, Min(Max(offset.n, 1), |sibs| + 1), sibs)
            && (forall id :: id in rows ==> id in after && after[id].parent == rows[id].parent))
  {
    var e := Repositioned(rows, faulty, None, board.id, column.id, Rank(Max(offset.n, 1)), false, sibs);
    if e.0 == Resolved {
      RepositionArranges(rows, faulty, None, board.id, column.id, Rank(Max(offset.n, 1)), false, sibs);
      forall id | id in rows ensures id in e.1 && e.1[id].parent == rows[id].parent {
        RepositionScope(rows, faulty, None, board.id, column.id, Rank(Max(offset.n, 1)), false, sibs, id);
      }
    }
  }

  /** Columns of other boards are never written, whatever the outcome. */
  lemma MoveKeepsOtherBoards(rows: map<Id, Row>, faulty: set<Id>, column: Obj, board: Obj, offset: Rank, sibs: seq<Id>, id: Id)
    requires offset.Rank? && IsPersisted(board, BoardModel) && IsColumn(column) ==> IsSiblingRead(rows, board.id, column.id, sibs)
    requires id in rows && rows[id].parent != IdOf(board) && id != IdOf(column)
    ensures var after := MoveEffect(rows, faulty, column, board, offset, sibs).1;
      id in after && after[id] == rows[id]
  {
    if offset.Rank? && IsPersisted(board, BoardModel) {
      RepositionScope(rows, faulty, PositionsRefusal(board, column), board.id, IdOf(column), Rank(Max(offset.n, 1)), false, sibs, id);
    }
  }

  /** The board of four columns A, B, C, D (ids 1..4 on 1..4): moving C to 2 gives
      A, C, B, D. */
  lemma MoveExample(faulty: set<Id>)
    requires faulty == {}
    ensures var rows := map[1 := Row(9, 1), 2 := Row(9, 2), 3 := Row(9, 3), 4 := Row(9, 4)];
      MoveEffect(rows, faulty, Instance(ColumnModel, 3, false), Instance(BoardModel, 9, false), Rank(2), [1, 2, 4]).1
        == map[1 := Row(9, 1), 3 := Row(9, 2), 2 := Row(9, 3), 4 := Row(9, 4)]
  {
    var rows := map[1 := Row(9, 1), 2 := Row(9, 2), 3 := Row(9, 3), 4 := Row(9, 4)];
    var sibs := [1, 2, 4];
    var plan := Plan(sibs, 3, 2);
    WalkCompleted(rows, faulty, 9, 3, 2, false, sibs);
    var after := Applied(rows, 9, false, plan);
    AppliedKeys(rows, 9, false, plan);
    ReorderItem(rows, 9, 3, 2, false, sibs);
    ReorderSibling(rows, 9, 3, 2, false, sibs, 0);
    ReorderSibling(rows, 9, 3, 2, false, sibs, 1);
    ReorderSibling(rows, 9, 3, 2, false, sibs, 2);
    assert after == map[1 := Row(9, 1), 3 := Row(9, 2), 2 := Row(9, 3), 4 := Row(9, 4)];
  }

  /** The same board: moving C to 1 gives C, A, B, D. */
  lemma MoveToFrontExample(faulty: set<Id>)
    requires faulty == {}
    ensures var rows := map[1 := Row(9, 1), 2 := Row(9, 2), 3 := Row(9, 3), 4 := Row(9, 4)];
      MoveEffect(rows, faulty, Instance(ColumnModel, 3, false), Instance(BoardModel, 9, false), Rank(1), [1, 2, 4]).1
        == map[3 := Row(9, 1), 1 := Row(9, 2), 2 := Row(9, 3), 4 := Row(9, 4)]
  {
    var rows := map[1 := Row(9, 1), 2 := Row(9, 2), 3 := Row(9, 3), 4 := Row(9, 4)];
    var sibs := [1, 2, 4];
    var plan := Plan(sibs, 3, 1);
    WalkCompleted(rows, faulty, 9, 3, 1, false, sibs);
    var after := Applied(rows, 9, false, plan);
    AppliedKeys(rows, 9, false, plan);
    ReorderItem(rows, 9, 3, 1, false, sibs);
    ReorderSibling(rows, 9, 3, 1, false, sibs, 0);
    ReorderSibling(rows, 9, 3, 1, false, sibs, 1);
    ReorderSibling(rows, 9, 3, 1, false, sibs, 2);
    assert after == map[3 := Row(9, 1), 1 := Row(9, 2), 2 := Row(9, 3), 4 := Row(9, 4)];
  }

  /** The same board: moving C to 5, past the end, gives A, B, D, C. */
  lemma MovePastEndExample(faulty: set<Id>)
    requires faulty == {}
    ensures var rows := map[1 := Row(9, 1), 2 := Row(9, 2), 3 := Row(9, 3), 4 := Row(9, 4)];
      MoveEffect(rows, faulty, Instance(ColumnModel, 3, false), Instance(BoardModel, 9, false), Rank(5), [1, 2, 4]).1
        == map[1 := Row(9, 1), 2 := Row(9, 2), 4 := Row(9, 3), 3 := Row(9, 4)]
  {
    var rows := map[1 := Row(9, 1), 2 := Row(9, 2), 3 := Row(9, 3), 4 := Row(9, 4)];
    var sibs := [1, 2, 4];
    var plan := Plan(sibs, 3, 5);
    WalkCompleted(rows, faulty, 9, 3, 5, false, sibs);
    var after := Applied(rows, 9, false, plan);
    AppliedKeys(rows, 9, false, plan);
    ReorderItem(rows, 9, 3, 5, false, sibs);
    ReorderSibling(rows, 9, 3, 5, false, sibs, 0);
    ReorderSibling(rows, 9, 3, 5, false, sibs, 1);
    ReorderSibling(rows, 9, 3, 5, false, sibs, 2);
    assert after == map[1 := Row(9, 1), 2 := Row(9, 2), 4 := Row(9, 3), 3 := Row(9, 4)];
  }
}
