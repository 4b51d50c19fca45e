/** The generic reorder helper: the option checks, the parent/child/position guards, and
    the walk over the sibling read, run against one table of children. */
module Reorder {
  import opened Entities
  import opened Store

  // The messages of the rejections and throws.
  const OptionsMissing := "Reorder Options missing"
  const ParentModelMissing := "Parent model missing"
  const ChildModelMissing := "Child model missing"
  const ForeignKeyMissing := "Foreign-key fore parent relationship of reordering is missing"
  const InvalidParent := "Invalid parent for reordering"
  const InvalidChild := "Invalid child for reordering"

  /** The options object as the helper inspects it. `parentModel`/`childModel` are None
      when missing or not an object; `fk` and `canChangeParent` are whatever value the
      key holds, None when the key is absent. The foreign key names the table's parent
      reference. */
  datatype Options = Options(
    plainObject: bool,
    parentModel: Option<Model>,
    childModel: Option<Model>,
    fk: Option<Value>,
    canChangeParent: Option<Value>)

  /** The options are complete: all four synchronous checks pass. */
  predicate WellFormed(o: Options)
  {
    o.plainObject && o.parentModel.Some? && o.childModel.Some? && o.fk.Some? && o.fk.value.Text?
  }

  /** The message of the first synchronous check that fails, in the helper's order. */
  function OptionsError(o: Options): (e: Option<string>)
    ensures e.None? <==> WellFormed(o)
    ensures !o.plainObject ==> e == Some(OptionsMissing)
  {
    if !o.plainObject then Some(OptionsMissing)
    else if o.parentModel.None? then Some(ParentModelMissing)
    else if o.childModel.None? then Some(ChildModelMissing)
    else if !(o.fk.Some? && o.fk.value.Text?) then Some(ForeignKeyMissing)
    else None
  }

  /** `canChangeParent` after defaulting: true only when the key holds the boolean true. */
  function CanChangeParent(o: Options): (b: bool)
    ensures b <==> o.canChangeParent.Some? && o.canChangeParent.value.Bool? && o.canChangeParent.value.b
  {
    match o.canChangeParent
    case Some(Bool(b)) => b
    case _ => false
  }

  /** The message of the first of the parent and child checks that fails. */
  function PartyError(o: Options, parent: Obj, item: Obj): (e: Option<string>)
    requires WellFormed(o)
    ensures e.None? <==> IsPersisted(parent, o.parentModel.value) && IsPersisted(item, o.childModel.value)
    ensures !IsPersisted(parent, o.parentModel.value) ==> e == Some(InvalidParent)
    ensures IsPersisted(parent, o.parentModel.value) && !IsPersisted(item, o.childModel.value) ==>
      e == Some(InvalidChild)
  {
    if !IsPersisted(parent, o.parentModel.value) then Some(InvalidParent)
    else if !IsPersisted(item, o.childModel.value) then Some(InvalidChild)
    else None
  }

  /** The guards pass and the sibling read happens. */
  predicate Admitted(o: Options, parent: Obj, item: Obj, position: Rank)
  {
    WellFormed(o) && Proceeds(PartyError(o, parent, item), position)
  }

  /** The result of the call and the table after it. */
  function ReorderEffect(rows: map<Id, Row>, faulty: set<Id>, o: Options, parent: Obj, item: Obj,
                         position: Rank, sibs: seq<Id>): (Outcome, map<Id, Row>)
  {
    if OptionsError(o).Some? then (Thrown(Message(OptionsError(o).value)), rows)
    else if PartyError(o, parent, item).Some? then (Rejected(Message(PartyError(o, parent, item).value)), rows)
    else Repositioned(rows, faulty, None, parent.id, item.id, position, CanChangeParent(o), sibs)
  }

  /** `reorder(parent, item, position, transaction, options)` run on the children table `t`;
      `sibs` is what the sibling read returns. */
  method Reorder(t: Table, o: Options, parent: Obj, item: Obj, position: Rank, sibs: seq<Id>) returns (r: Outcome)
    requires Admitted(o, parent, item, position) ==> IsSiblingRead(t.rows, parent.id, item.id, sibs)
    modifies t`rows
    ensures (r, t.rows) == ReorderEffect(old(t.rows), t.faulty, o, parent, item, position, sibs)
  {
    ReorderThrows(t.rows, t.faulty, o, parent, item, position, sibs);
    if !o.plainObject {
      return Thrown(Message(OptionsMissing));
    }
    if o.parentModel.None? {
      return Thrown(Message(ParentModelMissing));
    }
    if o.childModel.None? {
      return Thrown(Message(ChildModelMissing));
    }
    if !(o.fk.Some? && o.fk.value.Text?) {
      return Thrown(Message(ForeignKeyMissing));
    }
    var canChangeParent := false;
    if o.canChangeParent.Some? && o.canChangeParent.value.Bool? {
      canChangeParent := o.canChangeParent.value.b;
    }
    assert canChangeParent == CanChangeParent(o);
    ReorderSettles(t.rows, t.faulty, o, parent, item, position, sibs);
    r := Settle(t, o, parent, item, position, canChangeParent, sibs);
  }

  /** Incomplete options throw the message of the first failing check. */
  lemma ReorderThrows(rows: map<Id, Row>, faulty: set<Id>, o: Options, parent: Obj, item: Obj,
                      position: Rank, sibs: seq<Id>)
    ensures !WellFormed(o) ==>
      ReorderEffect(rows, faulty, o, parent, item, position, sibs) == (Thrown(Message(OptionsError(o).value)), rows)
  {
  }

  /** With well-formed options the call is the promise's executor. */
  lemma ReorderSettles(rows: map<Id, Row>, faulty: set<Id>, o: Options, parent: Obj, item: Obj,
                       position: Rank, sibs: seq<Id>)
    requires WellFormed(o)
    ensures ReorderEffect(rows, faulty, o, parent, item, position, sibs) == (
      if PartyError(o, parent, item).Some? then (Rejected(Message(PartyError(o, parent, item).value)), rows)
      else Repositioned(rows, faulty, None, parent.id, item.id, position, CanChangeParent(o), sibs))
  {
  }

  /** The executor of the promise `reorder` returns: the parent, child and position checks,
      then the walk at the clamped position. */
  method Settle(t: Table, o: Options, parent: Obj, item: Obj, position: Rank, canChangeParent: bool,
                sibs: seq<Id>) returns (r: Outcome)
    requires WellFormed(o)
    requires Admitted(o, parent, item, position) ==> IsSiblingRead(t.rows, parent.id, item.id, sibs)
    modifies t`rows
    ensures (r, t.rows) == (
      if PartyError(o, parent, item).Some? then (Rejected(Message(PartyError(o, parent, item).value)), old(t.rows))
      else Repositioned(old(t.rows), t.faulty, None, parent.id, item.id, position, canChangeParent, sibs))
  {
    if !IsPersisted(parent, o.parentModel.value) {
      return Rejected(Message(InvalidParent));
    }
    if !IsPersisted(item, o.childModel.value) {
      return Rejected(Message(InvalidChild));
    }
    if position.NotNumber? {
      return Rejected(Message(NotNumeric));
    }
    var p := position.n;
    if p < 0 {
      p := 0;
    }
    r := t.Walk(parent.id, item.id, p, canChangeParent, sibs);
  }

  /** Malformed options throw synchronously and the parent, child and position checks
      reject, all before the sibling read: the outcome does not depend on the read and
      nothing is written. */
  lemma GuardsBeforeRead(rows: map<Id, Row>, faulty: set<Id>, o: Options, parent: Obj, item: Obj,
                         position: Rank, sibs: seq<Id>, other: seq<Id>)
    requires !Admitted(o, parent, item, position)
    ensures var (r, after) := ReorderEffect(rows, faulty, o, parent, item, position, sibs);
      && after == rows
      && (r, after) == ReorderEffect(rows, faulty, o, parent, item, position, other)
      && (!WellFormed(o) <==> r.Thrown?)
      && (WellFormed(o) ==> r.Rejected? && r.error.Message?)
  {
    if !WellFormed(o) {
      assert ReorderEffect(rows, faulty, o, parent, item, position, sibs) == (Thrown(Message(OptionsError(o).value)), rows);
      assert ReorderEffect(rows, faulty, o, parent, item, position, other) == (Thrown(Message(OptionsError(o).value)), rows);
    } else if PartyError(o, parent, item).Some? {
      assert ReorderEffect(rows, faulty, o, parent, item, position, sibs) == (Rejected(Message(PartyError(o, parent, item).value)), rows);
      assert ReorderEffect(rows, faulty, o, parent, item, position, other) == (Rejected(Message(PartyError(o, parent, item).value)), rows);
    } else {
      RefusedBeforeRead(rows, faulty, None, parent.id, item.id, position, CanChangeParent(o), sibs, other);
    }
  }

  /** A successful call with p >= 1 leaves the parent's children on 1..n+1 with the item at
      min(p, n + 1) under the parent and the siblings in the order of the read; with p <= 0 the item is left alone and the others renumbered 1..n. */
  lemma ReorderArranges(rows: map<Id, Row>, faulty: set<Id>, o: Options, parent: Obj, item: Obj,
                        position: Rank, sibs: seq<Id>)
    requires Admitted(o, parent, item, position) && IsSiblingRead(rows, parent.id, item.id, sibs)
    requires item.id in rows && (CanChangeParent(o) || rows[item.id].parent == parent.id)
    requires ReorderEffect(rows, faulty, o, parent, item, position, sibs).0 == Resolved
    ensures var after := ReorderEffect(rows, faulty, o, parent, item, position, sibs).1;
      position.n >= 1 ==> Arranged(after, parent.id, item.id, Min(position.n, |sibs| + 1), sibs)
    ensures var after := ReorderEffect(rows, faulty, o, parent, item, position, sibs).1;
      position.n <= 0 ==>
        && Contiguous(after, parent.id, {item.id}, |sibs|)
        && item.id in after && after[item.id] == rows[item.id]
  {
    if position.n >= 1 {
      RepositionArranges(rows, faulty, None, parent.id, item.id, position, CanChangeParent(o), sibs);
    } else {
      RepositionRemoves(rows, faulty, None, parent.id, item.id, position, CanChangeParent(o), sibs);
    }
  }

  /** Whatever the outcome, only the parent's children and the item may change (nothing
      at all when a guard refuses), and parent references change only when
      `canChangeParent` is the boolean true. */
  lemma ReorderScope(rows: map<Id, Row>, faulty: set<Id>, o: Options, parent: Obj, item: Obj,
                     position: Rank, sibs: seq<Id>, id: Id)
    requires Admitted(o, parent, item, position) ==> IsSiblingRead(rows, parent.id, item.id, sibs)
    requires id in rows
    ensures var after := ReorderEffect(rows, faulty, o, parent, item, position, sibs).1;
      && after.Keys == rows.Keys
      && (!Admitted(o, parent, item, position) ==> after == rows)
      && (Admitted(o, parent, item, position) && rows[id].parent != parent.id && id != item.id ==> after[id] == rows[id])
      && (!CanChangeParent(o) ==> after[id].parent == rows[id].parent)
  {
    if Admitted(o, parent, item, position) {
      RepositionScope(rows, faulty, None, parent.id, item.id, position, CanChangeParent(o), sibs, id);
    }
  }
}
