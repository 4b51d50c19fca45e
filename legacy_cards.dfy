/** The legacy card model: its own copy of the repositioning walk, which writes the
    ColumnId together with every position, `make`, and `moveTo`, which always runs in a
    managed transaction of its own. */
module LegacyCards {
  import opened Entities
  import opened Store
  import opened Reorder
  import Columns
  import Cards

  // The messages of the rejections and throws.
  const InvalidColumn := "Invalid column"
  const InvalidCard := "Invalid card"
  const ColumnMissing := "Card is not associated with a valid column"
  const OtherBoard := "Can not move card to column in different board"
  const OffsetNotNumeric := "Position offset must be numeric"

  /** `isCard`. */
  predicate IsCard(obj: Obj)
  {
    IsPersisted(obj, CardModel)
  }

  /** The refusal of `saveCardPositions` and `saveCardPosition`: the column, then the card. */
  function PositionsRefusal(column: Obj, card: Obj): (e: Option<string>)
    ensures e.None? <==> Columns.IsColumn(column) && IsCard(card)
    ensures !Columns.IsColumn(column) ==> e == Some(InvalidColumn)
    ensures Columns.IsColumn(column) && !IsCard(card) ==> e == Some(InvalidCard)
  {
    if !Columns.IsColumn(column) then Some(InvalidColumn)
    else if !IsCard(card) then Some(InvalidCard)
    else None
  }

  /** What `saveCardPositions(column, card, position, transaction)` ends with. */
  function PositionsEffect(rows: map<Id, Row>, faulty: set<Id>, column: Obj, card: Obj, position: Rank, sibs: seq<Id>): (Outcome, map<Id, Row>)
  {
    Repositioned(rows, faulty, PositionsRefusal(column, card), IdOf(column), IdOf(card), position, true, sibs)
  }

  /** `saveCardPosition`: one card's position, and its ColumnId set to the column. */
  method SaveCardPosition(t: Table, column: Obj, card: Obj, position: Rank) returns (r: Outcome)
    modifies t`rows
    ensures (r, t.rows) == WriteEffect(old(t.rows), t.faulty, PositionsRefusal(column, card), IdOf(card), position, IdOf(column), true)
  {
    if !Columns.IsColumn(column) {
      return Rejected(Message(InvalidColumn));
    }
    if !IsCard(card) {
      return Rejected(Message(InvalidCard));
    }
    if position.NotNumber? {
      return Rejected(Message(NotNumeric));
    }
    var p := position.n;
    if p < 0 {
      p := 0;
    }
    r := t.Save(card.id, p, column.id, true);
  }

  /** `saveCardPositions` on the cards table; `sibs` is the read of the column's other
      cards by ascending position. */
  method SaveCardPositions(t: Table, column: Obj, card: Obj, position: Rank, sibs: seq<Id>) returns (r: Outcome)
    requires Proceeds(PositionsRefusal(column, card), position) ==> IsSiblingRead(t.rows, column.id, card.id, sibs)
    modifies t`rows
    ensures (r, t.rows) == PositionsEffect(old(t.rows), t.faulty, column, card, position, sibs)
  {
    if !Columns.IsColumn(column) {
      return Rejected(Message(InvalidColumn));
    }
    if !IsCard(card) {
      return Rejected(Message(InvalidCard));
    }
    if position.NotNumber? {
      return Rejected(Message(NotNumeric));
    }
    var p := position.n;
    if p < 0 {
      p := 0;
    }
    r := t.Walk(column.id, card.id, p, true, sibs);
  }

  /** What the legacy `moveTo(column, offset)` ends with. */
  function MoveEffect(rows: map<Id, Row>, faulty: set<Id>, columns: map<Id, Row>, card: Id, column: Obj, offset: Rank,
                      srcSibs: seq<Id>, dstSibs: seq<Id>): (Outcome, map<Id, Row>)
    requires card in rows && (Columns.IsColumn(column) ==> column.id in columns)
  {
    if !Columns.IsColumn(column) then (Rejected(Message(InvalidColumn)), rows)
    else if offset.NotNumber? then (Rejected(Message(OffsetNotNumeric)), rows)
    else
      var k := Max(offset.n, 1);
      var from := Cards.ColumnOf(columns, rows, card);
      var item := Instance(CardModel, card, false);
      if !Columns.IsColumn(from) then (Rejected(Message(ColumnMissing)), rows)
      else if columns[from.id].parent != columns[column.id].parent then (Rejected(Message(OtherBoard)), rows)
      else if from.id == column.id then Transacted(rows, PositionsEffect(rows, faulty, column, item, Rank(k), dstSibs))
      else
        var first := PositionsEffect(rows, faulty, from, item, Rank(0), srcSibs);
        Transacted(rows, if first.0 != Resolved then first else PositionsEffect(first.1, faulty, column, item, Rank(k), dstSibs))
  }

  /** `card.moveTo(column, offset)`; `columns` is the columns table `getColumn()` reads,
      `srcSibs` and `dstSibs` the reads of the card's own and the target column. */
  method MoveTo(t: Table, columns: map<Id, Row>, card: Id, column: Obj, offset: Rank, srcSibs: seq<Id>, dstSibs: seq<Id>) returns (r: Outcome)
    requires card in t.rows && (Columns.IsColumn(column) ==> column.id in columns)
    requires Cards.MoveReads(t.rows, card, column, srcSibs, dstSibs)
    modifies t`rows
    ensures (r, t.rows) == MoveEffect(old(t.rows), t.faulty, columns, card, column, offset, srcSibs, dstSibs)
  {
    if !Columns.IsColumn(column) {
      return Rejected(Message(InvalidColumn));
    }
    if offset.NotNumber? {
      return Rejected(Message(OffsetNotNumeric));
    }
    var k := offset.n;
    if k < 1 {
      k := 1;
    }
    var from := t.rows[card].parent;
    if from !in columns {
      return Rejected(Message(ColumnMissing));
    }
    if columns[from].parent != columns[column.id].parent {
      return Rejected(Message(OtherBoard));
    }
    var item := Instance(CardModel, card, false);
    var snapshot := t.rows;
    if from == column.id {
      r := SaveCardPositions(t, column, item, Rank(k), dstSibs);
    } else {
      r := SaveCardPositions(t, Instance(ColumnModel, from, false), item, Rank(0), srcSibs);
      if r == Resolved {
        SiblingReadKept(snapshot, t.faulty, from, card, 0, true, srcSibs, column.id, dstSibs);
        r := SaveCardPositions(t, column, item, Rank(k), dstSibs);
      }
    }
    if r != Resolved {
      t.rows := snapshot;
    }
  }

  /** The legacy `make(column, cardData)`: the same checks, defaults and placement as the
      server model's, without the surrounding transaction. */
  method Make(s: Cards.CardStore, column: Obj, data: Cards.CardData, max: Option<int>, newId: Id, now: Value)
    returns (r: Outcome)
    requires Columns.IsColumn(column) ==> IsMaxPosition(s.placement.rows, column.id, max)
    requires newId !in s.placement.rows
    modifies s`fields, s.placement`rows
    ensures (r, Cards.Stored(s.placement.rows, s.fields))
         == Cards.MakeEffect(old(Cards.Stored(s.placement.rows, s.fields)), column, data, max, newId, now)
  {
    if !Columns.IsColumn(column) {
      return Rejected(Message(InvalidColumn));
    }
    var title := OrEmpty(data.title);
    var description := OrEmpty(data.description);
    var estimate := if data.estimate.Some? then data.estimate.value else 0.0;
    var messages := Cards.CardMessages(title, estimate);
    if messages != [] {
      return Rejected(Invalid(messages));
    }
    var position := if max.None? then 1 else max.value + 1;
    s.fields := s.fields[newId := Cards.Fields(title, description, data.dueDate, estimate, now, now)];
    s.placement.rows := s.placement.rows[newId := Row(column.id, position)];
    r := Resolved;
  }

  // ---------------------------------------------------------------------------------
  // The legacy copy against the generic helper
  // ---------------------------------------------------------------------------------

  /** The legacy walk is the generic reorder with the card options whenever both guards
      pass; otherwise both refuse, before reading, and write nothing. */
  lemma PositionsMatchReorder(rows: map<Id, Row>, faulty: set<Id>, column: Obj, card: Obj, position: Rank, sibs: seq<Id>)
    ensures var legacy := PositionsEffect(rows, faulty, column, card, position, sibs);
      var generic := ReorderEffect(rows, faulty, Cards.CardOrder, column, card, position, sibs);
      && (Columns.IsColumn(column) && IsCard(card) ==> legacy == generic)
      && (!(Columns.IsColumn(column) && IsCard(card)) ==>
            legacy.0.Rejected? && generic.0.Rejected? && legacy.1 == rows && generic.1 == rows)
  {
    Cards.CardOrderValid();
  }

  /** The legacy `moveTo` ends exactly as the server `moveTo` called without a
      transaction, on every input, so every property proved there holds here. */
  lemma MoveMatchesServer(rows: map<Id, Row>, faulty: set<Id>, columns: map<Id, Row>, card: Id, column: Obj, offset: Rank,
                          srcSibs: seq<Id>, dstSibs: seq<Id>)
    requires card in rows && (Columns.IsColumn(column) ==> column.id in columns)
    ensures MoveEffect(rows, faulty, columns, card, column, offset, srcSibs, dstSibs)
         == Cards.MoveEffect(rows, faulty, columns, card, column, offset, false, srcSibs, dstSibs)
  {
    if Columns.IsColumn(column) && offset.Rank? {
      var k := Max(offset.n, 1);
      var from := Cards.ColumnOf(columns, rows, card);
      var item := Instance(CardModel, card, false);
      if Columns.IsColumn(from) && columns[from.id].parent == columns[column.id].parent {
        PositionsMatchReorder(rows, faulty, column, item, Rank(k), dstSibs);
        if from.id != column.id {
          PositionsMatchReorder(rows, faulty, from, item, Rank(0), srcSibs);
          var first := PositionsEffect(rows, faulty, from, item, Rank(0), srcSibs);
          PositionsMatchReorder(first.1, faulty, column, item, Rank(k), dstSibs);
        }
      }
    }
  }

  /** Whatever fails, the legacy move leaves the table as it was. */
  lemma MoveRollsBack(rows: map<Id, Row>, faulty: set<Id>, columns: map<Id, Row>, card: Id, column: Obj, offset: Rank,
                      srcSibs: seq<Id>, dstSibs: seq<Id>)
    requires card in rows && (Columns.IsColumn(column) ==> column.id in columns)
    ensures var (r, after) := MoveEffect(rows, faulty, columns, card, column, offset, srcSibs, dstSibs);
      r != Resolved ==> after == rows
  {
    MoveMatchesServer(rows, faulty, columns, card, column, offset, srcSibs, dstSibs);
    Cards.MoveRollsBack(rows, faulty, columns, card, column, offset, srcSibs, dstSibs);
  }

  /** A successful legacy move across columns compacts the source column, in its old
      order, and inserts the card into the target at min(max(k, 1), m + 1). */
  lemma MoveAcrossColumns(rows: map<Id, Row>, faulty: set<Id>, columns: map<Id, Row>, card: Id, column: Obj, offset: Rank,
                          srcSibs: seq<Id>, dstSibs: seq<Id>)
    requires card in rows && Columns.IsColumn(column) && column.id in columns && offset.Rank?
    requires Cards.MoveReads(rows, card, column, srcSibs, dstSibs) && rows[card].parent != column.id
    ensures var (r, after) := MoveEffect(rows, faulty, columns, card, column, offset, srcSibs, dstSibs);
      r == Resolved ==>
      && Contiguous(after, rows[card].parent, {}, |srcSibs|)
      && (forall i :: 0 <= i < |srcSibs| ==> srcSibs[i] in after && after[srcSibs[i]].position == i + 1)
      && card in after && after[card] == Row(column.id, Min(Max(offset.n, 1), |dstSibs| + 1))
      && Contiguous(after, column.id, {}, |dstSibs| + 1)
  {
    MoveMatchesServer(rows, faulty, columns, card, column, offset, srcSibs, dstSibs);
    Cards.MoveAcrossColumns(rows, faulty, columns, card, column, offset, false, srcSibs, dstSibs);
  }

  /** A successful legacy move within the card's column renumbers it 1..n+1 with the
      card at min(max(k, 1), n + 1). */
  lemma MoveWithinColumn(rows: map<Id, Row>, faulty: set<Id>, columns: map<Id, Row>, card: Id, column: Obj, offset: Rank,
                         srcSibs: seq<Id>, dstSibs: seq<Id>)
    requires card in rows && Columns.IsColumn(column) && column.id in columns && offset.Rank?
    requires Cards.MoveReads(rows, card, column, srcSibs, dstSibs) && rows[card].parent == column.id
    requires MoveEffect(rows, faulty, columns, card, column, offset, srcSibs, dstSibs).0 == Resolved
    ensures var after := MoveEffect(rows, faulty, columns, card, column, offset, srcSibs, dstSibs).1;
      && Contiguous(after, column.id, {}, |dstSibs| + 1)
      && card in after && after[card] == Row(column.id, Min(Max(offset.n, 1), |dstSibs| + 1))
  {
    MoveMatchesServer(rows, faulty, columns, card, column, offset, srcSibs, dstSibs);
    Cards.MoveWithinColumn(rows, faulty, columns, card, column, offset, false, srcSibs, dstSibs);
  }
}
