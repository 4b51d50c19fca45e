/** Tasks of a card: the card-scoped copy of the repositioning walk, which writes
    positions only, `Task.make`, which appends at the end, and `Task.moveTo`. */
module Tasks {
  import opened Entities
  import opened JsText
  import opened Validation
  import opened Store

  // The messages of the rejections and throws.
  const InvalidCard := "Invalid card"
  const InvalidTask := "Invalid task"
  const CardMissing := "Task is not associated with a valid card"
  const TitleEmpty := "Task title may not be empty"
  const TitleLength := "Task title is either too long or too short (1..255 characters)"
  const OffsetNotNumeric := "Position offset must be numeric"

  /** The creation data `make` reads. */
  datatype TaskData = TaskData(title: Option<string>)

  /** `isTask`. */
  predicate IsTask(obj: Obj)
  {
    IsPersisted(obj, TaskModel)
  }

  /** The refusal of `saveTaskPositions`: the card is checked first, then that task. */
  function PositionsRefusal(card: Obj, task: Obj): (e: Option<string>)
    ensures e.None? <==> IsPersisted(card, CardModel) && IsTask(task)
    ensures !IsPersisted(card, CardModel) ==> e == Some(InvalidCard)
    ensures IsPersisted(card, CardModel) && !IsTask(task) ==> e == Some(InvalidTask)
  {
    if !IsPersisted(card, CardModel) then Some(InvalidCard)
    else if !IsTask(task) then Some(InvalidTask)
    else None
  }

  /** `saveTaskPosition`: one task's position, never its CardId. */
  method SaveTaskPosition(t: Table, task: Obj, position: Rank) returns (r: Outcome)
    modifies t`rows
    ensures (r, t.rows) == WriteEffect(old(t.rows), t.faulty, if IsTask(task) then None else Some(InvalidTask),
                                       IdOf(task), position, 0, false)
  {
    if !IsTask(task) {
      return Rejected(Message(InvalidTask));
    }
    if position.NotNumber? {
      return Rejected(Message(NotNumeric));
    }
    var p := position.n;
    if p < 0 {
      p := 0;
    }
    r := t.Save(task.id, p, 0, false);
  }

  /** `saveTaskPositions(card, task, position, transaction)` on the table of tasks;
      `sibs` is the read of the card's other tasks by ascending position. */
  method SaveTaskPositions(t: Table, card: Obj, task: Obj, position: Rank, sibs: seq<Id>) returns (r: Outcome)
    requires Proceeds(PositionsRefusal(card, task), position) ==> IsSiblingRead(t.rows, card.id, task.id, sibs)
    modifies t`rows
    ensures (r, t.rows) == Repositioned(old(t.rows), t.faulty, PositionsRefusal(card, task),
                                        IdOf(card), IdOf(task), position, false, sibs)
  {
    if !IsPersisted(card, CardModel) {
      return Rejected(Message(InvalidCard));
    }
    if !IsTask(task) {
      return Rejected(Message(InvalidTask));
    }
    if position.NotNumber? {
      return Rejected(Message(NotNumeric));
    }
    var p := position.n;
    if p < 0 {
      p := 0;
    }
    r := t.Walk(card.id, task.id, p, false, sibs);
  }

  /** The messages `validate()` reports for a task with this title. */
  function TaskMessages(title: string): seq<string>
  {
    TextMessages(title, TitleEmpty, TitleLength, 1, 255)
  }

  /** What `make` ends with: the card check, the title defaulted to '' and validated,
      then the new task stored under the card at `max + 1`. */
  function MakeEffect(rows: map<Id, Row>, card: Obj, data: TaskData, max: Option<int>, newId: Id): (Outcome, map<Id, Row>)
  {
    var title := if data.title.Some? then data.title.value else "";
    if !IsPersisted(card, CardModel) then (Rejected(Message(InvalidCard)), rows)
    else if TaskMessages(title) != [] then (Rejected(Invalid(TaskMessages(title))), rows)
    else (Resolved, rows[newId := Row(card.id, NextPosition(max))])
  }

  /** `Task.make(card, taskData)`; `max` is what `max('position')` over the card's
      tasks returns and `newId` the key the new row receives. */
  method Make(t: Table, card: Obj, data: TaskData, max: Option<int>, newId: Id) returns (r: Outcome)
    requires IsPersisted(card, CardModel) ==> IsMaxPosition(t.rows, card.id, max)
    requires newId !in t.rows
    modifies t`rows
    ensures (r, t.rows) == MakeEffect(old(t.rows), card, data, max, newId)
  {
    if !IsPersisted(card, CardModel) {
      return Rejected(Message(InvalidCard));
    }
    var title := if data.title.Some? then data.title.value else "";
    var messages := TaskMessages(title);
    if messages != [] {
      return Rejected(Invalid(messages));
    }
    var position := if max.None? then 1 else max.value + 1;
    t.rows := t.rows[newId := Row(card.id, position)];
    r := Resolved;
  }

  /** What `moveTo` ends with: the offset check and the clamp to 1, the card lookup,
      then `saveTaskPositions` in a managed transaction. */
  function MoveEffect(rows: map<Id, Row>, faulty: set<Id>, task: Obj, card: Obj, offset: Rank, sibs: seq<Id>): (Outcome, map<Id, Row>)
  {
    if offset.NotNumber? then (Rejected(Message(OffsetNotNumeric)), rows)
    else if !IsPersisted(card, CardModel) then (Rejected(Message(CardMissing)), rows)
    else Transacted(rows, Repositioned(rows, faulty, PositionsRefusal(card, task), card.id, IdOf(task),
                                       Rank(Max(offset.n, 1)), false, sibs))
  }

  /** `task.moveTo(offset)`; `card` is what `getCard()` resolves to and `sibs` the
      read of its other tasks. */
  method MoveTo(t: Table, task: Obj, card: Obj, offset: Rank, sibs: seq<Id>) returns (r: Outcome)
    requires offset.Rank? && IsPersisted(card, CardModel) && IsTask(task) ==> IsSiblingRead(t.rows, card.id, task.id, sibs)
    modifies t`rows
    ensures (r, t.rows) == MoveEffect(old(t.rows), t.faulty, task, card, offset, sibs)
  {
    if offset.NotNumber? {
      return Rejected(Message(OffsetNotNumeric));
    }
    var k := offset.n;
    if k < 1 {
      k := 1;
    }
    if !IsPersisted(card, CardModel) {
      return Rejected(Message(CardMissing));
    }
    var snapshot := t.rows;
    r := SaveTaskPositions(t, card, task, Rank(k), sibs);
    if r != Resolved {
      t.rows := snapshot;
    }
  }

  /** `make` refuses an invalid card and an empty or blank title before anything is
      read or written. */
  lemma MakeRefuses(rows: map<Id, Row>, card: Obj, data: TaskData, max: Option<int>, newId: Id)
    ensures var (r, after) := MakeEffect(rows, card, data, max, newId);
      && (!IsPersisted(card, CardModel) ==> r == Rejected(Message(InvalidCard)))
      && (IsPersisted(card, CardModel) && (data.title.None? || Blank(data.title.value)) ==>
            r.Rejected? && r.error.Invalid? && r.error.messages[0] == TitleEmpty)
      && (r != Resolved ==> after == rows)
  {
  }

  /** A created task is placed after every task of its card, at 1 on an empty card,
      and a card whose tasks were on 1..n has them on 1..n+1 afterwards. */
  lemma MakeAppends(rows: map<Id, Row>, card: Obj, data: TaskData, max: Option<int>, newId: Id, n: nat)
    requires IsPersisted(card, CardModel) ==> IsMaxPosition(rows, card.id, max)
    requires newId !in rows
    requires MakeEffect(rows, card, data, max, newId).0 == Resolved
    ensures var after := MakeEffect(rows, card, data, max, newId).1;
      && newId in after && after[newId].parent == card.id
      && (forall id :: id in rows && rows[id].parent == card.id ==> rows[id].position < after[newId].position)
      && (max.None? ==> after[newId].position == 1)
      && (forall id :: id in rows ==> id in after && after[id] == rows[id])
      && (Contiguous(rows, card.id, {}, n) ==> Contiguous(after, card.id, {}, n + 1))
  {
    var after := MakeEffect(rows, card, data, max, newId).1;
    forall id | id in rows && rows[id].parent == card.id ensures rows[id].position < after[newId].position {
      NextPositionAbove(rows, card.id, max, id);
    }
    if Contiguous(rows, card.id, {}, n) {
      AppendContiguous(rows, card.id, n, max, newId);
    }
  }

  /** A move that resolves leaves the card's tasks on 1..N, the moved task at
      min(max(k, 1), N), the others in their old order, and no CardId changed; one that
      does not leaves the table as it was. */
  lemma MoveArranges(rows: map<Id, Row>, faulty: set<Id>, task: Obj, card: Obj, offset: Rank, sibs: seq<Id>)
    requires offset.Rank? && IsPersisted(card, CardModel) && IsTask(task)
    requires IsSiblingRead(rows, card.id, task.id, sibs)
    requires task.id in rows && rows[task.id].parent == card.id
    ensures var (r, after) := MoveEffect(rows, faulty, task, card, offset, sibs);
      && (r != Resolved ==> after == rows)
      && (r == Resolved ==>
            && Arranged(after, card.id, task.id, Min(Max(offset.n, 1), |sibs| + 1), sibs)
            && (forall id :: id in rows ==> id in after && after[id].parent == rows[id].parent))
  {
    var e := Repositioned(rows, faulty, None, card.id, task.id, Rank(Max(offset.n, 1)), false, sibs);
    if e.0 == Resolved {
      RepositionArranges(rows, faulty, None, card.id, task.id, Rank(Max(offset.n, 1)), false, sibs);
      forall id | id in rows ensures id in e.1 && e.1[id].parent == rows[id].parent {
        RepositionScope(rows, faulty, None, card.id, task.id, Rank(Max(offset.n, 1)), false, sibs, id);
      }
    }
  }

  /** Tasks of other cards are never written, whatever the outcome. */
  lemma MoveKeepsOtherCards(rows: map<Id, Row>, faulty: set<Id>, task: Obj, card: Obj, offset: Rank, sibs: seq<Id>, id: Id)
    requires offset.Rank? && IsPersisted(card, CardModel) && IsTask(task) ==> IsSiblingRead(rows, card.id, task.id, sibs)
    requires id in rows && rows[id].parent != IdOf(card) && id != IdOf(task)
    ensures var after := MoveEffect(rows, faulty, task, card, offset, sibs).1;
      id in after && after[id] == rows[id]
  {
    if offset.Rank? && IsPersisted(card, CardModel) {
      RepositionScope(rows, faulty, PositionsRefusal(card, task), card.id, IdOf(task), Rank(Max(offset.n, 1)), false, sibs, id);
    }
  }

  /** The card with tasks 1..5 on 1..5: moving task 3 to 4 gives 1, 2, 4, 3, 5. */
  lemma MoveExample(faulty: set<Id>)
    requires faulty == {}
    ensures var rows := map[1 := Row(9, 1), 2 := Row(9, 2), 3 := Row(9, 3), 4 := Row(9, 4), 5 := Row(9, 5)];
      MoveEffect(rows, faulty, Instance(TaskModel, 3, false), Instance(CardModel, 9, false), Rank(4), [1, 2, 4, 5]).1
        == map[1 := Row(9, 1), 2 := Row(9, 2), 4 := Row(9, 3), 3 := Row(9, 4), 5 := Row(9, 5)]
  {
    var rows := map[1 := Row(9, 1), 2 := Row(9, 2), 3 := Row(9, 3), 4 := Row(9, 4), 5 := Row(9, 5)];
    var sibs := [1, 2, 4, 5];
    var plan := Plan(sibs, 3, 4);
    WalkCompleted(rows, faulty, 9, 3, 4, false, sibs);
    var after := Applied(rows, 9, false, plan);
    AppliedKeys(rows, 9, false, plan);
    ReorderItem(rows, 9, 3, 4, false, sibs);
    ReorderSibling(rows, 9, 3, 4, false, sibs, 0);
    ReorderSibling(rows, 9, 3, 4, false, sibs, 1);
    ReorderSibling(rows, 9, 3, 4, false, sibs, 2);
    ReorderSibling(rows, 9, 3, 4, false, sibs, 3);
    assert after == map[1 := Row(9, 1), 2 := Row(9, 2), 4 := Row(9, 3), 3 := Row(9, 4), 5 := Row(9, 5)];
  }

  /** The same card: an offset of 0 is clamped to 1 and moves task 3 to the front,
      giving 3, 1, 2, 4, 5. */
  lemma MoveToFrontExample(faulty: set<Id>)
    requires faulty == {}
    ensures var rows := map[1 := Row(9, 1), 2 := Row(9, 2), 3 := Row(9, 3), 4 := Row(9, 4), 5 := Row(9, 5)];
      MoveEffect(rows, faulty, Instance(TaskModel, 3, false), Instance(CardModel, 9, false), Rank(0), [1, 2, 4, 5]).1
        == map[3 := Row(9, 1), 1 := Row(9, 2), 2 := Row(9, 3), 4 := Row(9, 4), 5 := Row(9, 5)]
  {
    var rows := map[1 := Row(9, 1), 2 := Row(9, 2), 3 := Row(9, 3), 4 := Row(9, 4), 5 := Row(9, 5)];
    var sibs := [1, 2, 4, 5];
    var plan := Plan(sibs, 3, 1);
    WalkCompleted(rows, faulty, 9, 3, 1, false, sibs);
    var after := Applied(rows, 9, false, plan);
    AppliedKeys(rows, 9, false, plan);
    ReorderItem(rows, 9, 3, 1, false, sibs);
    ReorderSibling(rows, 9, 3, 1, false, sibs, 0);
    ReorderSibling(rows, 9, 3, 1, false, sibs, 1);
    ReorderSibling(rows, 9, 3, 1, false, sibs, 2);
    ReorderSibling(rows, 9, 3, 1, false, sibs, 3);
    assert after == map[3 := Row(9, 1), 1 := Row(9, 2), 2 := Row(9, 3), 4 := Row(9, 4), 5 := Row(9, 5)];
  }

  /** The same card: an offset past the end appends task 3 after the others, giving
      1, 2, 4, 5, 3. */
  lemma MovePastEndExample(faulty: set<Id>)
    requires faulty == {}
    ensures var rows := map[1 := Row(9, 1), 2 := Row(9, 2), 3 := Row(9, 3), 4 := Row(9, 4), 5 := Row(9, 5)];
      MoveEffect(rows, faulty, Instance(TaskModel, 3, false), Instance(CardModel, 9, false), Rank(9), [1, 2, 4, 5]).1
        == map[1 := Row(9, 1), 2 := Row(9, 2), 4 := Row(9, 3), 5 := Row(9, 4), 3 := Row(9, 5)]
  {
    var rows := map[1 := Row(9, 1), 2 := Row(9, 2), 3 := Row(9, 3), 4 := Row(9, 4), 5 := Row(9, 5)];
    var sibs := [1, 2, 4, 5];
    var plan := Plan(sibs, 3, 9);
    WalkCompleted(rows, faulty, 9, 3, 9, false, sibs);
    var after := Applied(rows, 9, false, plan);
    AppliedKeys(rows, 9, false, plan);
    ReorderItem(rows, 9, 3, 9, false, sibs);
    ReorderSibling(rows, 9, 3, 9, false, sibs, 0);
    ReorderSibling(rows, 9, 3, 9, false, sibs, 1);
    ReorderSibling(rows, 9, 3, 9, false, sibs, 2);
    ReorderSibling(rows, 9, 3, 9, false, sibs, 3);
    assert after == map[1 := Row(9, 1), 2 := Row(9, 2), 4 := Row(9, 3), 5 := Row(9, 4), 3 := Row(9, 5)];
  }
}
