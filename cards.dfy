/** Cards of a column (the server-side model): `Card.make`, which appends at the end,
    `moveTo`, which repositions through the generic reorder helper within a column or
    across two columns of one board, and `patch`, which applies RFC 6902 `replace`
    operations to a snapshot of the card and stores the result atomically. */
module Cards {
  import opened Entities
  import opened JsText
  import opened Validation
  import opened Store
  import opened Reorder
  import Columns

  // The messages of the rejections and throws.
  const InvalidColumn := "Invalid column"
  const ColumnMissing := "Card is not associated with a valid column"
  const OtherBoard := "Can not move card to column in different board"
  const TitleEmpty := "Card title may not be empty"
  const TitleLength := "Card title is either too long or too short (1..255 characters)"
  const OffsetNotNumeric := "Position offset must be numeric"
  const NotApplicable := "Patches can not be applied"
  const WrapMissing := "helpers.wrapTransaction is not a function"

  /** The plain fields of a stored card, with the `createdAt` and `updatedAt` stamps the
      model keeps by default. */
  datatype Fields = Fields(title: string, description: string, dueDate: Value, estimate: real,
                           createdAt: Value, updatedAt: Value)

  /** The card table: placement rows (ColumnId and position) and the plain fields. */
  datatype Stored = Stored(rows: map<Id, Row>, fields: map<Id, Fields>)

  /** The creation data `make` reads; None stands for a missing value (or, for the texts,
      a falsy one). */
  datatype CardData = CardData(title: Option<string>, description: Option<string>, dueDate: Value, estimate: Option<real>)

  /** A top-level member of the card record, as a patch path names it; `KeyOther` is any
      name the record does not have. */
  datatype Member =
    | KeyId | KeyTitle | KeyDescription | KeyDueDate | KeyEstimate | KeyPosition | KeyColumnId
    | KeyCreatedAt | KeyUpdatedAt
    | KeyOther(name: string)

  /** One RFC 6902 operation: `replace` of a top-level member (section 4.3), or an
      operation the patch validator refuses. */
  datatype Operation = Replace(member: Member, value: Value) | Refused

  /** The messages `validate()` reports for a card with this title and estimate. */
  function CardMessages(title: string, estimate: real): seq<string>
  {
    TextMessages(title, TitleEmpty, TitleLength, 1, 255)
      + MinMessages(Some(estimate), 0.0)
  }

  /** The options `moveTo` hands to the reorder helper. */
  const CardOrder := Options(true, Some(ColumnModel), Some(CardModel), Some(Text("ColumnId")), Some(Bool(true)))

  /** `helpers.wrapTransaction`: inside the caller's transaction the writes are left for
      the caller to commit or roll back; otherwise a managed transaction rolls them back
      on failure. */
  function Wrapped(ambient: bool, before: map<Id, Row>, effect: (Outcome, map<Id, Row>)): (Outcome, map<Id, Row>)
  {
    if ambient then effect else Transacted(before, effect)
  }

  /** The persisted column a card row points at, as `getColumn()` resolves it. */
  function ColumnOf(columns: map<Id, Row>, rows: map<Id, Row>, card: Id): (c: Obj)
    requires card in rows
    ensures c.Instance? ==> c.id == rows[card].parent && c.id in columns && Columns.IsColumn(c)
  {
    if rows[card].parent in columns then Instance(ColumnModel, rows[card].parent, false) else Nothing
  }

  /** The work `moveTo` does inside its transaction, for a valid target column and a
      clamped offset k: the card's own column must be valid and on the same board; then
      one reorder, or the source compaction followed by the insertion into the target. */
  function Relocated(rows: map<Id, Row>, faulty: set<Id>, columns: map<Id, Row>, card: Id, column: Obj, k: int,
                     srcSibs: seq<Id>, dstSibs: seq<Id>): (Outcome, map<Id, Row>)
    requires card in rows && Columns.IsColumn(column) && column.id in columns
  {
    var from := ColumnOf(columns, rows, card);
    var item := Instance(CardModel, card, false);
    if !Columns.IsColumn(from) then (Rejected(Message(ColumnMissing)), rows)
    else if columns[from.id].parent != columns[column.id].parent then (Rejected(Message(OtherBoard)), rows)
    else if from.id == column.id then ReorderEffect(rows, faulty, CardOrder, column, item, Rank(k), dstSibs)
    else
      var first := ReorderEffect(rows, faulty, CardOrder, from, item, Rank(0), srcSibs);
      if first.0 != Resolved then first
      else ReorderEffect(first.1, faulty, CardOrder, column, item, Rank(k), dstSibs)
  }

  /** What `card.moveTo(column, offset, transaction)` ends with. */
  function MoveEffect(rows: map<Id, Row>, faulty: set<Id>, columns: map<Id, Row>, card: Id, column: Obj, offset: Rank,
                      ambient: bool, srcSibs: seq<Id>, dstSibs: seq<Id>): (Outcome, map<Id, Row>)
    requires card in rows && (Columns.IsColumn(column) ==> column.id in columns)
  {
    if !Columns.IsColumn(column) then (Rejected(Message(InvalidColumn)), rows)
    else if offset.NotNumber? then (Rejected(Message(OffsetNotNumeric)), rows)
    else Wrapped(ambient, rows, Relocated(rows, faulty, columns, card, column, Max(offset.n, 1), srcSibs, dstSibs))
  }

  /** The sibling reads `moveTo` performs are the reads of that moment: the card's own
      column, and the target column. */
  ghost predicate MoveReads(rows: map<Id, Row>, card: Id, column: Obj, srcSibs: seq<Id>, dstSibs: seq<Id>)
    requires card in rows
  {
    && IsSiblingRead(rows, rows[card].parent, card, srcSibs)
    && (column.Instance? ==> IsSiblingRead(rows, column.id, card, dstSibs))
  }

  /** `that.get()`: the card as a plain record. */
  function Snapshot(card: Id, f: Fields, row: Row): (d: map<Member, Value>)
    ensures d.Keys == {KeyId, KeyTitle, KeyDescription, KeyDueDate, KeyEstimate, KeyPosition, KeyColumnId,
                       KeyCreatedAt, KeyUpdatedAt}
  {
    map[KeyId := Num(card as real), KeyTitle := Text(f.title), KeyDescription := Text(f.description),
        KeyDueDate := f.dueDate, KeyEstimate := Num(f.estimate), KeyPosition := Num(row.position as real),
        KeyColumnId := Num(row.parent as real), KeyCreatedAt := f.createdAt, KeyUpdatedAt := f.updatedAt]
  }

  /** `jsonpatch.validate` finds nothing to object to: every operation is a `replace` of a
      member the record has. */
  predicate Applicable(ops: seq<Operation>, data: map<Member, Value>)
  {
    forall i :: 0 <= i < |ops| ==> ops[i].Replace? && ops[i].member in data
  }

  /** `jsonpatch.apply` of replace operations, one after the other. */
  function ApplyReplace(data: map<Member, Value>, ops: seq<Operation>): (d: map<Member, Value>)
    requires Applicable(ops, data)
    ensures d.Keys == data.Keys
    ensures forall m :: m in d && (forall i :: 0 <= i < |ops| ==> ops[i].member != m) ==> d[m] == data[m]
    ensures forall m :: m in d ==> d[m] == data[m] || exists i :: 0 <= i < |ops| && ops[i] == Replace(m, d[m])
    decreases |ops|
  {
    if ops == [] then data
    else
      var d := ApplyReplace(data[ops[0].member := ops[0].value], ops[1..]);
      assert forall m :: m in d && d[m] != data[m] ==> exists i :: 0 <= i < |ops| && ops[i] == Replace(m, d[m]) by {
        forall m | m in d && d[m] != data[m] ensures exists i :: 0 <= i < |ops| && ops[i] == Replace(m, d[m]) {
          if m == ops[0].member && d[m] == ops[0].value {
            assert ops[0] == Replace(m, d[m]);
          } else {
            var i :| 0 <= i < |ops[1..]| && ops[1..][i] == Replace(m, d[m]);
            assert ops[i + 1] == Replace(m, d[m]);
          }
        }
      }
      d
  }

  /** The type each member of the card record has, which replace values keep: texts for
      the title and description, a number for the estimate and the ColumnId, and an
      integer whenever the position is a number. */
  predicate TypedFor(m: Member, v: Value)
  {
    && (m == KeyTitle || m == KeyDescription ==> v.Text?)
    && (m == KeyEstimate || m == KeyColumnId ==> v.Num?)
    && (m == KeyPosition && v.Num? ==> IsInteger(v.r))
  }

  predicate WellTyped(ops: seq<Operation>)
  {
    forall i :: 0 <= i < |ops| ==> ops[i].Replace? ==> TypedFor(ops[i].member, ops[i].value)
  }

  /** Replacing with well-typed values keeps the snapshot well-typed. */
  lemma PatchedTyped(data: map<Member, Value>, ops: seq<Operation>)
    requires Applicable(ops, data) && WellTyped(ops)
    requires forall m :: m in data ==> TypedFor(m, data[m])
    ensures var d := ApplyReplace(data, ops); forall m :: m in d ==> TypedFor(m, d[m])
  {
    var d := ApplyReplace(data, ops);
    forall m | m in d ensures TypedFor(m, d[m]) {
      if d[m] != data[m] {
        var i :| 0 <= i < |ops| && ops[i] == Replace(m, d[m]);
      }
    }
  }

  /** The column `Column.findOne({ where: { id: data.ColumnId } })` resolves to. */
  function ColumnLookup(columns: map<Id, Row>, v: Value): (c: Obj)
    ensures c.Instance? ==> c.id in columns && Columns.IsColumn(c) && v == Num(c.id as real)
  {
    if v.Num? && IsInteger(v.r) && v.r >= 0.0 && (v.r.Floor as nat) in columns then Instance(ColumnModel, v.r.Floor as nat, false)
    else Nothing
  }

  /** The snapshot of a stored card after the patch, and what `patch` then compares. */
  function Patched(s: Stored, card: Id, ops: seq<Operation>): (d: map<Member, Value>)
    requires card in s.rows && card in s.fields
    requires Applicable(ops, Snapshot(card, s.fields[card], s.rows[card])) && WellTyped(ops)
    ensures d.Keys == Snapshot(card, s.fields[card], s.rows[card]).Keys
    ensures forall m :: m in d ==> TypedFor(m, d[m])
  {
    var data := Snapshot(card, s.fields[card], s.rows[card]);
    PatchedTyped(data, ops);
    ApplyReplace(data, ops)
  }

  /** What `save` stores for the card `kept`: the four plain fields `patch` copies from the
      patched snapshot, the creation stamp as it was, and `now` as the update stamp. */
  function CopiedFields(d: map<Member, Value>, kept: Fields, now: Value): Fields
    requires KeyTitle in d && KeyDescription in d && KeyDueDate in d && KeyEstimate in d
    requires d[KeyTitle].Text? && d[KeyDescription].Text? && d[KeyEstimate].Num?
  {
    Fields(d[KeyTitle].s, d[KeyDescription].s, d[KeyDueDate], d[KeyEstimate].r, kept.createdAt, now)
  }

  /** The patch asks for a move: its position or ColumnId differs from the stored one. */
  predicate MovesCard(d: map<Member, Value>, row: Row)
    requires KeyPosition in d && KeyColumnId in d
  {
    d[KeyPosition] != Num(row.position as real) || d[KeyColumnId] != Num(row.parent as real)
  }

  /** The sibling reads the move inside `patch` performs. */
  ghost predicate PatchReads(s: Stored, columns: map<Id, Row>, card: Id, ops: seq<Operation>, srcSibs: seq<Id>, dstSibs: seq<Id>)
    requires card in s.rows && card in s.fields
  {
    && IsSiblingRead(s.rows, s.rows[card].parent, card, srcSibs)
    && (Applicable(ops, Snapshot(card, s.fields[card], s.rows[card])) && WellTyped(ops) ==>
          var target := ColumnLookup(columns, Patched(s, card, ops)[KeyColumnId]);
          target.Instance? ==> IsSiblingRead(s.rows, target.id, card, dstSibs))
  }

  /** The snapshot after the patch carries what the transaction body reads: texts for the
      title and description, a number for the estimate, an integer position if numeric. */
  predicate Readable(d: map<Member, Value>)
  {
    && KeyTitle in d && KeyDescription in d && KeyDueDate in d && KeyEstimate in d
    && KeyPosition in d && KeyColumnId in d
    && d[KeyTitle].Text? && d[KeyDescription].Text? && d[KeyEstimate].Num?
    && (d[KeyPosition].Num? ==> IsInteger(d[KeyPosition].r))
  }

  /** The body of the transaction in `patch`, for the patched snapshot `d`: set the four
      fields and save them, then move the card when its position or ColumnId changed. */
  function CommitEffect(s: Stored, faulty: set<Id>, columns: map<Id, Row>, card: Id, d: map<Member, Value>,
                        srcSibs: seq<Id>, dstSibs: seq<Id>, now: Value): (Outcome, Stored)
    requires card in s.rows && card in s.fields && Readable(d)
  {
    var f := CopiedFields(d, s.fields[card], now);
    if CardMessages(f.title, f.estimate) != [] then (Rejected(Invalid(CardMessages(f.title, f.estimate))), s)
    else if card in faulty then (Rejected(StorageFault(card)), s)
    else if !MovesCard(d, s.rows[card]) then (Resolved, Stored(s.rows, s.fields[card := f]))
    else
      var m := MoveEffect(s.rows, faulty, columns, card, ColumnLookup(columns, d[KeyColumnId]), RankOf(d[KeyPosition]),
                          true, srcSibs, dstSibs);
      (m.0, Stored(m.1, s.fields[card := f]))
  }

  /** What `card.patch(patches)` ends with: refused patches change nothing; otherwise the
      transaction body runs and is rolled back as a whole when any step fails. */
  function PatchEffect(s: Stored, faulty: set<Id>, columns: map<Id, Row>, card: Id, ops: seq<Operation>,
                       srcSibs: seq<Id>, dstSibs: seq<Id>, now: Value): (Outcome, Stored)
    requires card in s.rows && card in s.fields && WellTyped(ops)
  {
    if !Applicable(ops, Snapshot(card, s.fields[card], s.rows[card])) then (Rejected(Message(NotApplicable)), s)
    else
      Rollback(s, CommitEffect(s, faulty, columns, card, Patched(s, card, ops), srcSibs, dstSibs, now))
  }

  /** `sequelize.transaction` around a body: a failing body leaves the cards as before. */
  function Rollback(before: Stored, effect: (Outcome, Stored)): (e: (Outcome, Stored))
    ensures e.0 == effect.0 && (e.0 == Resolved ==> e.1 == effect.1) && (e.0 != Resolved ==> e.1 == before)
  {
    if effect.0 == Resolved then effect else (effect.0, before)
  }

  /** What `Card.make(column, cardData)` ends with. */
  function MakeEffect(s: Stored, column: Obj, data: CardData, max: Option<int>, newId: Id, now: Value): (Outcome, Stored)
  {
    var title := OrEmpty(data.title);
    var estimate := if data.estimate.Some? then data.estimate.value else 0.0;
    if !Columns.IsColumn(column) then (Rejected(Message(InvalidColumn)), s)
    else if CardMessages(title, estimate) != [] then (Rejected(Invalid(CardMessages(title, estimate))), s)
    else (Resolved, Stored(s.rows[newId := Row(column.id, NextPosition(max))],
                           s.fields[newId := Fields(title, OrEmpty(data.description), data.dueDate, estimate, now, now)]))
  }

  /** The cards, updated in place. */
  class CardStore {
    const placement: Table
    var fields: map<Id, Fields>

    constructor (placement: Table, fields: map<Id, Fields>)
      ensures this.placement == placement && this.fields == fields
    {
      this.placement := placement;
      this.fields := fields;
    }

    /** `Card.make(column, cardData)`: validation, `max('position')` over the column
        (`max`), the save at `max + 1` and `setColumn`, in one transaction. */
    method Make(column: Obj, data: CardData, max: Option<int>, newId: Id, now: Value) returns (r: Outcome)
      requires Columns.IsColumn(column) ==> IsMaxPosition(placement.rows, column.id, max)
      requires newId !in placement.rows
      modifies this`fields, placement`rows
      ensures (r, Stored(placement.rows, fields)) == MakeEffect(old(Stored(placement.rows, fields)), column, data, max, newId, now)
    {
      if !Columns.IsColumn(column) {
        return Rejected(Message(InvalidColumn));
      }
      var title := OrEmpty(data.title);
      var description := OrEmpty(data.description);
      var estimate := if data.estimate.Some? then data.estimate.value else 0.0;
      var messages := CardMessages(title, estimate);
      if messages != [] {
        return Rejected(Invalid(messages));
      }
      var position := if max.None? then 1 else max.value + 1;
      fields := fields[newId := Fields(title, description, data.dueDate, estimate, now, now)];
      placement.rows := placement.rows[newId := Row(column.id, position)];
      r := Resolved;
    }

    /** The body of the transaction in `moveTo`. */
    method Relocate(columns: map<Id, Row>, card: Id, column: Obj, k: int, srcSibs: seq<Id>, dstSibs: seq<Id>) returns (r: Outcome)
      requires card in placement.rows && Columns.IsColumn(column) && column.id in columns
      requires MoveReads(placement.rows, card, column, srcSibs, dstSibs)
      modifies placement`rows
      ensures (r, placement.rows) == Relocated(old(placement.rows), placement.faulty, columns, card, column, k, srcSibs, dstSibs)
    {
      var from := placement.rows[card].parent;
      if from !in columns {
        return Rejected(Message(ColumnMissing));
      }
      if columns[from].parent != columns[column.id].parent {
        return Rejected(Message(OtherBoard));
      }
      var item := Instance(CardModel, card, false);
      if from == column.id {
        r := Reorder.Reorder(placement, CardOrder, column, item, Rank(k), dstSibs);
        return;
      }
      ghost var before := placement.rows;
      r := Reorder.Reorder(placement, CardOrder, Instance(ColumnModel, from, false), item, Rank(0), srcSibs);
      if r != Resolved {
        return;
      }
      SiblingReadKept(before, placement.faulty, from, card, 0, true, srcSibs, column.id, dstSibs);
      r := Reorder.Reorder(placement, CardOrder, column, item, Rank(k), dstSibs);
    }

    /** `card.moveTo(column, offset, transaction)`; `ambient` says whether the caller
        passed a transaction. */
    method MoveTo(columns: map<Id, Row>, card: Id, column: Obj, offset: Rank, ambient: bool,
                  srcSibs: seq<Id>, dstSibs: seq<Id>) returns (r: Outcome)
      requires card in placement.rows && (Columns.IsColumn(column) ==> column.id in columns)
      requires MoveReads(placement.rows, card, column, srcSibs, dstSibs)
      modifies placement`rows
      ensures (r, placement.rows) == MoveEffect(old(placement.rows), placement.faulty, columns, card, column, offset, ambient, srcSibs, dstSibs)
    {
      if !Columns.IsColumn(column) {
        return Rejected(Message(InvalidColumn));
      }
      if offset.NotNumber? {
        return Rejected(Message(OffsetNotNumeric));
      }
      var k := offset.n;
      if k < 1 {
        k := 1;
      }
      var snapshot := placement.rows;
      r := Relocate(columns, card, column, k, srcSibs, dstSibs);
      if !ambient && r != Resolved {
        placement.rows := snapshot;
      }
    }

    /** `card.patch(patches)`. */
    method Patch(columns: map<Id, Row>, card: Id, ops: seq<Operation>, srcSibs: seq<Id>, dstSibs: seq<Id>, now: Value)
      returns (r: Outcome)
      requires card in placement.rows && card in fields && WellTyped(ops)
      requires PatchReads(Stored(placement.rows, fields), columns, card, ops, srcSibs, dstSibs)
      modifies this`fields, placement`rows
      ensures (r, Stored(placement.rows, fields))
           == PatchEffect(old(Stored(placement.rows, fields)), placement.faulty, columns, card, ops, srcSibs, dstSibs, now)
    {
      var data := Snapshot(card, fields[card], placement.rows[card]);
      if !(forall i :: 0 <= i < |ops| ==> ops[i].Replace? && ops[i].member in data) {
        return Rejected(Message(NotApplicable));
      }
      data := Patched(Stored(placement.rows, fields), card, ops);
      r := Transaction(columns, card, data, srcSibs, dstSibs, now);
    }

    /** The transaction in `patch`: the body, rolled back when it fails. */
    method Transaction(columns: map<Id, Row>, card: Id, data: map<Member, Value>, srcSibs: seq<Id>, dstSibs: seq<Id>,
                       now: Value)
      returns (r: Outcome)
      requires card in placement.rows && card in fields && Readable(data)
      requires ColumnLookup(columns, data[KeyColumnId]).Instance? ==>
        IsSiblingRead(placement.rows, ColumnLookup(columns, data[KeyColumnId]).id, card, dstSibs)
      requires IsSiblingRead(placement.rows, placement.rows[card].parent, card, srcSibs)
      modifies this`fields, placement`rows
      ensures (r, Stored(placement.rows, fields))
           == Rollback(old(Stored(placement.rows, fields)),
                       CommitEffect(old(Stored(placement.rows, fields)), placement.faulty, columns, card, data, srcSibs, dstSibs, now))
    {
      var savedFields, savedRows := fields, placement.rows;
      r := Commit(columns, card, data, srcSibs, dstSibs, now);
      if r != Resolved {
        fields, placement.rows := savedFields, savedRows;
      }
    }

    /** The body of the transaction in `patch`. */
    method Commit(columns: map<Id, Row>, card: Id, data: map<Member, Value>, srcSibs: seq<Id>, dstSibs: seq<Id>,
                  now: Value)
      returns (r: Outcome)
      requires card in placement.rows && card in fields && Readable(data)
      requires ColumnLookup(columns, data[KeyColumnId]).Instance? ==>
        IsSiblingRead(placement.rows, ColumnLookup(columns, data[KeyColumnId]).id, card, dstSibs)
      requires IsSiblingRead(placement.rows, placement.rows[card].parent, card, srcSibs)
      modifies this`fields, placement`rows
      ensures (r, Stored(placement.rows, fields))
           == CommitEffect(old(Stored(placement.rows, fields)), placement.faulty, columns, card, data, srcSibs, dstSibs, now)
    {
      var f := Fields(data[KeyTitle].s, data[KeyDescription].s, data[KeyDueDate], data[KeyEstimate].r,
                      fields[card].createdAt, now);
      var messages := CardMessages(f.title, f.estimate);
      if messages != [] {
        return Rejected(Invalid(messages));
      }
      if card in placement.faulty {
        return Rejected(StorageFault(card));
      }
      var row := placement.rows[card];
      fields := fields[card := f];
      if data[KeyPosition] != Num(row.position as real) || data[KeyColumnId] != Num(row.parent as real) {
        var target := ColumnLookup(columns, data[KeyColumnId]);
        r := MoveTo(columns, card, target, RankOf(data[KeyPosition]), true, srcSibs, dstSibs);
      } else {
        r := Resolved;
      }
    }
  }

  // ---------------------------------------------------------------------------------
  // Properties of moveTo
  // ---------------------------------------------------------------------------------

  /** The card order options are well formed and let the parent change. */
  lemma CardOrderValid()
    ensures WellFormed(CardOrder) && OptionsError(CardOrder).None? && CanChangeParent(CardOrder)
  {
  }

  /** A move that resolves is its relocation. */
  lemma MoveUnfolds(rows: map<Id, Row>, faulty: set<Id>, columns: map<Id, Row>, card: Id, column: Obj, offset: Rank,
                    ambient: bool, srcSibs: seq<Id>, dstSibs: seq<Id>)
    requires card in rows && Columns.IsColumn(column) && column.id in columns && offset.Rank?
    requires MoveEffect(rows, faulty, columns, card, column, offset, ambient, srcSibs, dstSibs).0 == Resolved
    ensures MoveEffect(rows, faulty, columns, card, column, offset, ambient, srcSibs, dstSibs)
         == Relocated(rows, faulty, columns, card, column, Max(offset.n, 1), srcSibs, dstSibs)
  {
  }

  /** Within one column the relocation is the reorder at k. */
  lemma RelocatedWithin(rows: map<Id, Row>, faulty: set<Id>, columns: map<Id, Row>, card: Id, column: Obj, k: int,
                        srcSibs: seq<Id>, dstSibs: seq<Id>)
    requires card in rows && Columns.IsColumn(column) && column.id in columns && rows[card].parent == column.id
    ensures Relocated(rows, faulty, columns, card, column, k, srcSibs, dstSibs)
         == Repositioned(rows, faulty, None, column.id, card, Rank(k), true, dstSibs)
  {
    CardOrderValid();
  }

  /** Across columns of one board the relocation is the removal from the source followed,
      when it resolves, by the insertion into the target. */
  lemma RelocatedAcross(rows: map<Id, Row>, faulty: set<Id>, columns: map<Id, Row>, card: Id, column: Obj, k: int,
                        srcSibs: seq<Id>, dstSibs: seq<Id>)
    requires card in rows && Columns.IsColumn(column) && column.id in columns && rows[card].parent != column.id
    requires rows[card].parent in columns && columns[rows[card].parent].parent == columns[column.id].parent
    ensures var first := Repositioned(rows, faulty, None, rows[card].parent, card, Rank(0), true, srcSibs);
      Relocated(rows, faulty, columns, card, column, k, srcSibs, dstSibs)
        == if first.0 != Resolved then first
           else Repositioned(first.1, faulty, None, column.id, card, Rank(k), true, dstSibs)
  {
    CardOrderValid();
  }

  /** `moveTo` refuses, before any write, an invalid column, a non-numeric offset, a card
      without a valid column and a column of another board. */
  lemma MoveRefuses(rows: map<Id, Row>, faulty: set<Id>, columns: map<Id, Row>, card: Id, column: Obj, offset: Rank,
                    ambient: bool, srcSibs: seq<Id>, dstSibs: seq<Id>)
    requires card in rows && (Columns.IsColumn(column) ==> column.id in columns)
    ensures var (r, after) := MoveEffect(rows, faulty, columns, card, column, offset, ambient, srcSibs, dstSibs);
      && (!Columns.IsColumn(column) ==> r == Rejected(Message(InvalidColumn)) && after == rows)
      && (Columns.IsColumn(column) && offset.NotNumber? ==> r == Rejected(Message(OffsetNotNumeric)) && after == rows)
      && (Columns.IsColumn(column) && offset.Rank? && rows[card].parent !in columns ==>
            r == Rejected(Message(ColumnMissing)) && after == rows)
      && (Columns.IsColumn(column) && offset.Rank? && rows[card].parent in columns
          && columns[rows[card].parent].parent != columns[column.id].parent ==>
            r == Rejected(Message(OtherBoard)) && after == rows)
  {
  }

  /** Without a caller's transaction a failed move rolls back every write. */
  lemma MoveRollsBack(rows: map<Id, Row>, faulty: set<Id>, columns: map<Id, Row>, card: Id, column: Obj, offset: Rank,
                      srcSibs: seq<Id>, dstSibs: seq<Id>)
    requires card in rows && (Columns.IsColumn(column) ==> column.id in columns)
    ensures var (r, after) := MoveEffect(rows, faulty, columns, card, column, offset, false, srcSibs, dstSibs);
      r != Resolved ==> after == rows
  {
  }

  /** A move within the card's own column is one reorder: a successful one leaves the
      column's cards on 1..n+1, the card at min(max(k, 1), n + 1) and the others in their
      old order. */
  lemma MoveWithinColumn(rows: map<Id, Row>, faulty: set<Id>, columns: map<Id, Row>, card: Id, column: Obj, offset: Rank,
                         ambient: bool, srcSibs: seq<Id>, dstSibs: seq<Id>)
    requires card in rows && Columns.IsColumn(column) && column.id in columns && offset.Rank?
    requires MoveReads(rows, card, column, srcSibs, dstSibs) && rows[card].parent == column.id
    requires MoveEffect(rows, faulty, columns, card, column, offset, ambient, srcSibs, dstSibs).0 == Resolved
    ensures Arranged(MoveEffect(rows, faulty, columns, card, column, offset, ambient, srcSibs, dstSibs).1,
                     column.id, card, Min(Max(offset.n, 1), |dstSibs| + 1), dstSibs)
  {
    var k := Max(offset.n, 1);
    MoveUnfolds(rows, faulty, columns, card, column, offset, ambient, srcSibs, dstSibs);
    RelocatedWithin(rows, faulty, columns, card, column, k, srcSibs, dstSibs);
    var e := Repositioned(rows, faulty, None, column.id, card, Rank(k), true, dstSibs);
    assert MoveEffect(rows, faulty, columns, card, column, offset, ambient, srcSibs, dstSibs) == e;
    RepositionArranges(rows, faulty, None, column.id, card, Rank(k), true, dstSibs);
  }

  /** A move to another column of the board, once it resolves, has compacted the source
      column to 1..n-1 in the old order, put the card into the target column at
      min(max(k, 1), m + 1) with its ColumnId set, and left the target's cards on 1..m+1. */
  lemma MoveAcrossColumns(rows: map<Id, Row>, faulty: set<Id>, columns: map<Id, Row>, card: Id, column: Obj, offset: Rank,
                          ambient: bool, srcSibs: seq<Id>, dstSibs: seq<Id>)
    requires card in rows && Columns.IsColumn(column) && column.id in columns && offset.Rank?
    requires MoveReads(rows, card, column, srcSibs, dstSibs) && rows[card].parent != column.id
    ensures var (r, after) := MoveEffect(rows, faulty, columns, card, column, offset, ambient, srcSibs, dstSibs);
      r == Resolved ==>
      && Contiguous(after, rows[card].parent, {}, |srcSibs|)
      && (forall i :: 0 <= i < |srcSibs| ==> srcSibs[i] in after && after[srcSibs[i]].position == i + 1)
      && card in after && after[card] == Row(column.id, Min(Max(offset.n, 1), |dstSibs| + 1))
      && Contiguous(after, column.id, {}, |dstSibs| + 1)
  {
    if MoveEffect(rows, faulty, columns, card, column, offset, ambient, srcSibs, dstSibs).0 == Resolved {
      MovedAcross(rows, faulty, columns, card, column, offset, ambient, srcSibs, dstSibs);
    }
  }

  /** `MoveAcrossColumns` for a move known to resolve. */
  lemma MovedAcross(rows: map<Id, Row>, faulty: set<Id>, columns: map<Id, Row>, card: Id, column: Obj, offset: Rank,
                    ambient: bool, srcSibs: seq<Id>, dstSibs: seq<Id>)
    requires card in rows && Columns.IsColumn(column) && column.id in columns && offset.Rank?
    requires MoveReads(rows, card, column, srcSibs, dstSibs) && rows[card].parent != column.id
    requires MoveEffect(rows, faulty, columns, card, column, offset, ambient, srcSibs, dstSibs).0 == Resolved
    ensures var after := MoveEffect(rows, faulty, columns, card, column, offset, ambient, srcSibs, dstSibs).1;
      && Contiguous(after, rows[card].parent, {}, |srcSibs|)
      && (forall i :: 0 <= i < |srcSibs| ==> srcSibs[i] in after && after[srcSibs[i]].position == i + 1)
      && card in after && after[card] == Row(column.id, Min(Max(offset.n, 1), |dstSibs| + 1))
      && Contiguous(after, column.id, {}, |dstSibs| + 1)
  {
    var from := rows[card].parent;
    var k := Max(offset.n, 1);
    MoveUnfolds(rows, faulty, columns, card, column, offset, ambient, srcSibs, dstSibs);
    assert from in columns && columns[from].parent == columns[column.id].parent;
    RelocatedAcross(rows, faulty, columns, card, column, k, srcSibs, dstSibs);
    var first := Repositioned(rows, faulty, None, from, card, Rank(0), true, srcSibs);
    assert first.0 == Resolved;
    RepositionRemoves(rows, faulty, None, from, card, Rank(0), true, srcSibs);
    var rows1 := first.1;
    SiblingReadKept(rows, faulty, from, card, 0, true, srcSibs, column.id, dstSibs);
    var after := Repositioned(rows1, faulty, None, column.id, card, Rank(k), true, dstSibs).1;
    assert after == MoveEffect(rows, faulty, columns, card, column, offset, ambient, srcSibs, dstSibs).1;
    RepositionArranges(rows1, faulty, None, column.id, card, Rank(k), true, dstSibs);
    forall id | id in rows1 && rows1[id].parent == from && id != card ensures id in after && after[id] == rows1[id] {
      RepositionScope(rows1, faulty, None, column.id, card, Rank(k), true, dstSibs, id);
    }
    forall id | id in after && after[id].parent == from ensures id in rows1 && rows1[id].parent == from && id != card {
      var plan := Plan(dstSibs, card, k);
      AppliedKeys(rows1, column.id, true, plan[..FirstFault(plan, faulty)]);
      AppliedParentIn(rows1, column.id, true, plan[..FirstFault(plan, faulty)], id);
    }
    ContiguousKept(rows1, after, from, card, |srcSibs|);
    forall i | 0 <= i < |srcSibs| ensures srcSibs[i] in after && after[srcSibs[i]].position == i + 1 {
      RepositionScope(rows1, faulty, None, column.id, card, Rank(k), true, dstSibs, srcSibs[i]);
    }
  }

  /** Cards of columns other than the card's own and the target are never written. */
  lemma MoveKeepsOtherColumns(rows: map<Id, Row>, faulty: set<Id>, columns: map<Id, Row>, card: Id, column: Obj, offset: Rank,
                              ambient: bool, srcSibs: seq<Id>, dstSibs: seq<Id>, id: Id)
    requires card in rows && (Columns.IsColumn(column) ==> column.id in columns)
    requires MoveReads(rows, card, column, srcSibs, dstSibs)
    requires id in rows && id != card && rows[id].parent != rows[card].parent && rows[id].parent != IdOf(column)
    ensures var after := MoveEffect(rows, faulty, columns, card, column, offset, ambient, srcSibs, dstSibs).1;
      id in after && after[id] == rows[id]
  {
    if Columns.IsColumn(column) && offset.Rank? {
      var k := Max(offset.n, 1);
      RelocatedKeepsOtherColumns(rows, faulty, columns, card, column, k, srcSibs, dstSibs, id);
    }
  }

  /** The relocation writes only the cards of the card's own column and of the target. */
  lemma RelocatedKeepsOtherColumns(rows: map<Id, Row>, faulty: set<Id>, columns: map<Id, Row>, card: Id, column: Obj, k: int,
                                   srcSibs: seq<Id>, dstSibs: seq<Id>, id: Id)
    requires card in rows && Columns.IsColumn(column) && column.id in columns
    requires MoveReads(rows, card, column, srcSibs, dstSibs)
    requires id in rows && id != card && rows[id].parent != rows[card].parent && rows[id].parent != column.id
    ensures var after := Relocated(rows, faulty, columns, card, column, k, srcSibs, dstSibs).1;
      id in after && after[id] == rows[id]
  {
    var from := rows[card].parent;
    if from in columns && columns[from].parent == columns[column.id].parent {
      if from == column.id {
        RelocatedWithin(rows, faulty, columns, card, column, k, srcSibs, dstSibs);
        RepositionScope(rows, faulty, None, column.id, card, Rank(k), true, dstSibs, id);
      } else {
        RelocatedAcross(rows, faulty, columns, card, column, k, srcSibs, dstSibs);
        RepositionScope(rows, faulty, None, from, card, Rank(0), true, srcSibs, id);
        var rows1 := Repositioned(rows, faulty, None, from, card, Rank(0), true, srcSibs).1;
        SiblingReadKept(rows, faulty, from, card, 0, true, srcSibs, column.id, dstSibs);
        RepositionScope(rows1, faulty, None, column.id, card, Rank(k), true, dstSibs, id);
      }
    }
  }

  // The column AA, AB, AC, AD (ids 1..4 on 1..4, column 5 of board 8), and AC moved
  // within it.

  /** AC to 2 gives AA, AC, AB, AD. */
  lemma MoveWithinColumnToSecond(faulty: set<Id>)
    requires faulty == {}
    ensures MoveEffect(map[1 := Row(5, 1), 2 := Row(5, 2), 3 := Row(5, 3), 4 := Row(5, 4)], faulty, map[5 := Row(8, 1)],
                       3, Instance(ColumnModel, 5, false), Rank(2), false, [1, 2, 4], [1, 2, 4]).1
         == map[1 := Row(5, 1), 3 := Row(5, 2), 2 := Row(5, 3), 4 := Row(5, 4)]
  {
    WithinColumnRows(map[1 := Row(5, 1), 2 := Row(5, 2), 3 := Row(5, 3), 4 := Row(5, 4)], faulty, 2);
  }

  /** AC to 1 gives AC, AA, AB, AD. */
  lemma MoveWithinColumnToFirst(faulty: set<Id>)
    requires faulty == {}
    ensures MoveEffect(map[1 := Row(5, 1), 2 := Row(5, 2), 3 := Row(5, 3), 4 := Row(5, 4)], faulty, map[5 := Row(8, 1)],
                       3, Instance(ColumnModel, 5, false), Rank(1), false, [1, 2, 4], [1, 2, 4]).1
         == map[3 := Row(5, 1), 1 := Row(5, 2), 2 := Row(5, 3), 4 := Row(5, 4)]
  {
    WithinColumnRows(map[1 := Row(5, 1), 2 := Row(5, 2), 3 := Row(5, 3), 4 := Row(5, 4)], faulty, 1);
  }

  /** AC to 5, past the end, gives AA, AB, AD, AC. */
  lemma MoveWithinColumnPastEnd(faulty: set<Id>)
    requires faulty == {}
    ensures MoveEffect(map[1 := Row(5, 1), 2 := Row(5, 2), 3 := Row(5, 3), 4 := Row(5, 4)], faulty, map[5 := Row(8, 1)],
                       3, Instance(ColumnModel, 5, false), Rank(5), false, [1, 2, 4], [1, 2, 4]).1
         == map[1 := Row(5, 1), 2 := Row(5, 2), 4 := Row(5, 3), 3 := Row(5, 4)]
  {
    WithinColumnRows(map[1 := Row(5, 1), 2 := Row(5, 2), 3 := Row(5, 3), 4 := Row(5, 4)], faulty, 5);
  }

  /** The rows after a walk of the example column that places card 3 at rank p. */
  lemma WithinColumnRows(rows: map<Id, Row>, faulty: set<Id>, p: int)
    requires rows == map[1 := Row(5, 1), 2 := Row(5, 2), 3 := Row(5, 3), 4 := Row(5, 4)] && faulty == {} && p >= 1
    ensures var after := MoveEffect(rows, faulty, map[5 := Row(8, 1)], 3, Instance(ColumnModel, 5, false), Rank(p), false, [1, 2, 4], [1, 2, 4]).1;
      && after.Keys == rows.Keys
      && after[3] == Row(5, Min(p, 4))
      && after[1] == Row(5, SiblingRank(p, 3, 0))
      && after[2] == Row(5, SiblingRank(p, 3, 1))
      && after[4] == Row(5, SiblingRank(p, 3, 2))
  {
    var sibs := [1, 2, 4];
    var columns := map[5 := Row(8, 1)];
    var col := Instance(ColumnModel, 5, false);
    WalkCompleted(rows, faulty, 5, 3, p, true, sibs);
    var applied := Applied(rows, 5, true, Plan(sibs, 3, p));
    assert Repositioned(rows, faulty, None, 5, 3, Rank(p), true, sibs) == (Resolved, applied);
    RelocatedWithin(rows, faulty, columns, 3, col, p, sibs, sibs);
    assert MoveEffect(rows, faulty, columns, 3, col, Rank(p), false, sibs, sibs).1 == applied;
    AppliedKeys(rows, 5, true, Plan(sibs, 3, p));
    ReorderItem(rows, 5, 3, p, true, sibs);
    ReorderSibling(rows, 5, 3, p, true, sibs, 0);
    ReorderSibling(rows, 5, 3, p, true, sibs, 1);
    ReorderSibling(rows, 5, 3, p, true, sibs, 2);
  }

  // ---------------------------------------------------------------------------------
  // moveTo as written
  // ---------------------------------------------------------------------------------

  /** What `moveTo` ends with as written: past the column and offset checks it calls
      `helpers.wrapTransaction`, which server/models/helpers.js does not export, so the
      TypeError inside the promise executor rejects the move before any read or write. */
  function MoveAsWritten(rows: map<Id, Row>, column: Obj, offset: Rank): (Outcome, map<Id, Row>)
  {
    if !Columns.IsColumn(column) then (Rejected(Message(InvalidColumn)), rows)
    else if offset.NotNumber? then (Rejected(Message(OffsetNotNumeric)), rows)
    else (Rejected(Message(WrapMissing)), rows)
  }

  /** As written, no move resolves and none writes; the guards' refusals agree with the
      modelled `moveTo`, and every call they let through is rejected by the missing helper. */
  lemma MoveAsWrittenNeverMoves(rows: map<Id, Row>, faulty: set<Id>, columns: map<Id, Row>, card: Id, column: Obj,
                                offset: Rank, ambient: bool, srcSibs: seq<Id>, dstSibs: seq<Id>)
    requires card in rows && (Columns.IsColumn(column) ==> column.id in columns)
    ensures MoveAsWritten(rows, column, offset).0 != Resolved && MoveAsWritten(rows, column, offset).1 == rows
    ensures Columns.IsColumn(column) && offset.Rank? ==> MoveAsWritten(rows, column, offset) == (Rejected(Message(WrapMissing)), rows)
    ensures !(Columns.IsColumn(column) && offset.Rank?) ==>
      MoveAsWritten(rows, column, offset) == MoveEffect(rows, faulty, columns, card, column, offset, ambient, srcSibs, dstSibs)
  {
  }

  /** AC to 2 in the column AA, AB, AC, AD: as written the move is rejected and nothing
      changes; with the documented transaction it resolves to AA, AC, AB, AD. */
  lemma MoveAsWrittenExample(faulty: set<Id>)
    requires faulty == {}
    ensures var rows := map[1 := Row(5, 1), 2 := Row(5, 2), 3 := Row(5, 3), 4 := Row(5, 4)];
      && MoveAsWritten(rows, Instance(ColumnModel, 5, false), Rank(2)) == (Rejected(Message(WrapMissing)), rows)
      && MoveEffect(rows, faulty, map[5 := Row(8, 1)], 3, Instance(ColumnModel, 5, false), Rank(2), false, [1, 2, 4], [1, 2, 4])
         == (Resolved, map[1 := Row(5, 1), 3 := Row(5, 2), 2 := Row(5, 3), 4 := Row(5, 4)])
  {
    var rows := map[1 := Row(5, 1), 2 := Row(5, 2), 3 := Row(5, 3), 4 := Row(5, 4)];
    var sibs := [1, 2, 4];
    var col := Instance(ColumnModel, 5, false);
    WalkCompleted(rows, faulty, 5, 3, 2, true, sibs);
    RelocatedWithin(rows, faulty, map[5 := Row(8, 1)], 3, col, 2, sibs, sibs);
    assert MoveEffect(rows, faulty, map[5 := Row(8, 1)], 3, col, Rank(2), false, sibs, sibs).0 == Resolved;
    MoveWithinColumnToSecond(faulty);
  }

  // ---------------------------------------------------------------------------------
  // Properties of patch and make
  // ---------------------------------------------------------------------------------

  /** A patch the validator refuses is rejected and nothing is written. */
  lemma PatchRefusesInapplicable(s: Stored, faulty: set<Id>, columns: map<Id, Row>, card: Id, ops: seq<Operation>,
                                 srcSibs: seq<Id>, dstSibs: seq<Id>, now: Value)
    requires card in s.rows && card in s.fields && WellTyped(ops)
    requires exists i :: 0 <= i < |ops| && (ops[i].Refused? || ops[i].member !in Snapshot(card, s.fields[card], s.rows[card]))
    ensures PatchEffect(s, faulty, columns, card, ops, srcSibs, dstSibs, now) == (Rejected(Message(NotApplicable)), s)
  {
  }

  /** `patch` is all or nothing: a failing validation, save or move leaves every field
      and every position as it was. */
  lemma PatchAtomic(s: Stored, faulty: set<Id>, columns: map<Id, Row>, card: Id, ops: seq<Operation>,
                    srcSibs: seq<Id>, dstSibs: seq<Id>, now: Value)
    requires card in s.rows && card in s.fields && WellTyped(ops)
    ensures var (r, after) := PatchEffect(s, faulty, columns, card, ops, srcSibs, dstSibs, now);
      r != Resolved ==> after == s
  {
  }

  /** A patch that resolves stores exactly the four plain fields of the patched snapshot
      on that card, and changes placements only through the move, which happens exactly
      when the position or the ColumnId changed. */
  lemma PatchCopiesFields(s: Stored, faulty: set<Id>, columns: map<Id, Row>, card: Id, ops: seq<Operation>,
                          srcSibs: seq<Id>, dstSibs: seq<Id>, now: Value)
    requires card in s.rows && card in s.fields && WellTyped(ops)
    requires PatchEffect(s, faulty, columns, card, ops, srcSibs, dstSibs, now).0 == Resolved
    ensures Applicable(ops, Snapshot(card, s.fields[card], s.rows[card]))
    ensures var after := PatchEffect(s, faulty, columns, card, ops, srcSibs, dstSibs, now).1;
      var d := Patched(s, card, ops);
      && after.fields == s.fields[card := Fields(d[KeyTitle].s, d[KeyDescription].s, d[KeyDueDate], d[KeyEstimate].r,
                                                 s.fields[card].createdAt, now)]
      && (!MovesCard(d, s.rows[card]) ==> after.rows == s.rows)
      && (MovesCard(d, s.rows[card]) ==>
            after.rows == MoveEffect(s.rows, faulty, columns, card, ColumnLookup(columns, d[KeyColumnId]),
                                     RankOf(d[KeyPosition]), true, srcSibs, dstSibs).1)
  {
  }

  /** A patch that only replaces the plain fields never moves the card. */
  lemma PlainPatchDoesNotMove(s: Stored, faulty: set<Id>, columns: map<Id, Row>, card: Id, ops: seq<Operation>,
                              srcSibs: seq<Id>, dstSibs: seq<Id>, now: Value)
    requires card in s.rows && card in s.fields && WellTyped(ops)
    requires forall i :: 0 <= i < |ops| ==> ops[i].Replace? && ops[i].member in {KeyTitle, KeyDescription, KeyDueDate, KeyEstimate}
    ensures PatchEffect(s, faulty, columns, card, ops, srcSibs, dstSibs, now).1.rows == s.rows
  {
    var data := Snapshot(card, s.fields[card], s.rows[card]);
    assert Applicable(ops, data);
    var d := Patched(s, card, ops);
    assert d[KeyPosition] == data[KeyPosition] && d[KeyColumnId] == data[KeyColumnId];
  }

  /** A patch that only replaces the timestamps is applicable; when the stored card is
      valid and its save succeeds it resolves without moving the card, keeps the creation
      stamp and stores `now` as the update stamp, whatever value the patch gave. */
  lemma TimestampPatchResolves(s: Stored, faulty: set<Id>, columns: map<Id, Row>, card: Id, ops: seq<Operation>,
                               srcSibs: seq<Id>, dstSibs: seq<Id>, now: Value)
    requires card in s.rows && card in s.fields && WellTyped(ops)
    requires forall i :: 0 <= i < |ops| ==> ops[i].Replace? && ops[i].member in {KeyCreatedAt, KeyUpdatedAt}
    requires CardMessages(s.fields[card].title, s.fields[card].estimate) == [] && card !in faulty
    ensures PatchEffect(s, faulty, columns, card, ops, srcSibs, dstSibs, now)
         == (Resolved, Stored(s.rows, s.fields[card := s.fields[card].(updatedAt := now)]))
  {
    var data := Snapshot(card, s.fields[card], s.rows[card]);
    assert Applicable(ops, data);
    var d := Patched(s, card, ops);
    assert d[KeyTitle] == data[KeyTitle] && d[KeyDescription] == data[KeyDescription];
    assert d[KeyDueDate] == data[KeyDueDate] && d[KeyEstimate] == data[KeyEstimate];
    assert d[KeyPosition] == data[KeyPosition] && d[KeyColumnId] == data[KeyColumnId];
  }

  /** A created card is placed after every card of its column (at 1 in an empty column)
      with the defaulted fields; an invalid column or a blank title is refused. */
  lemma MakeAppends(s: Stored, column: Obj, data: CardData, max: Option<int>, newId: Id, now: Value)
    requires Columns.IsColumn(column) ==> IsMaxPosition(s.rows, column.id, max)
    ensures var (r, after) := MakeEffect(s, column, data, max, newId, now);
      && (!Columns.IsColumn(column) ==> r == Rejected(Message(InvalidColumn)) && after == s)
      && (Columns.IsColumn(column) && Blank(OrEmpty(data.title)) ==> r.Rejected? && after == s)
      && (r == Resolved ==>
            && newId in after.rows && after.rows[newId].parent == column.id
            && (forall id :: id in s.rows && id != newId && s.rows[id].parent == column.id ==>
                  s.rows[id].position < after.rows[newId].position)
            && (max.None? ==> after.rows[newId].position == 1)
            && newId in after.fields && after.fields[newId].title == OrEmpty(data.title)
            && after.fields[newId].description == OrEmpty(data.description)
            && after.fields[newId].createdAt == now && after.fields[newId].updatedAt == now)
  {
    if MakeEffect(s, column, data, max, newId, now).0 == Resolved {
      forall id | id in s.rows && id != newId && s.rows[id].parent == column.id
        ensures s.rows[id].position < NextPosition(max)
      {
        NextPositionAbove(s.rows, column.id, max, id);
      }
    }
  }
}
