/** The scoped sibling store and the repositioning walk that every orderable kind shares:
    columns in a board, cards in a column, tasks in a card. A table maps ids to rows that
    carry the parent reference (BoardId, ColumnId or CardId) and the position. */
module Store {
  import opened Entities

  /** The refusal of a position that is not a number. */
  const NotNumeric := "Position must be numeric"

  datatype Row = Row(parent: Id, position: int)

  /** One position update the walk issues, in the order it issues them. */
  datatype Write = Write(id: Id, position: int)

  /** A rejection: a message of the models, a list of Sequelize validation messages, or a
      storage failure while updating the given row. */
  datatype Error = Message(text: string) | Invalid(messages: seq<string>) | StorageFault(id: Id)

  /** How a promise-returning operation ends; `Thrown` is a synchronous throw. */
  datatype Outcome = Resolved | Rejected(error: Error) | Thrown(error: Error)

  predicate Distinct(s: seq<Id>)
  {
    forall i, j :: 0 <= i < j < |s| ==> s[i] != s[j]
  }

  /** The result of the sibling read: every child of `parent` except `item`, each once,
      in ascending position order (ties in any order). */
  ghost predicate IsSiblingRead(rows: map<Id, Row>, parent: Id, item: Id, sibs: seq<Id>)
  {
    && Distinct(sibs)
    && (forall i :: 0 <= i < |sibs| ==> sibs[i] in rows && rows[sibs[i]].parent == parent && sibs[i] != item)
    && (forall id :: id in rows && rows[id].parent == parent && id != item ==> id in sibs)
    && (forall i, j :: 0 <= i < j < |sibs| ==> rows[sibs[i]].position <= rows[sibs[j]].position)
  }

  /** The result of `max('position', { where: fk = parent })`: None when the parent has no
      children. */
  ghost predicate IsMaxPosition(rows: map<Id, Row>, parent: Id, max: Option<int>)
  {
    match max
    case None => forall id :: id in rows ==> rows[id].parent != parent
    case Some(m) =>
      && (exists id :: id in rows && rows[id].parent == parent && rows[id].position == m)
      && (forall id :: id in rows && rows[id].parent == parent ==> rows[id].position <= m)
  }

  /** `id` is a child of `parent`, outside `except`, at position k. */
  ghost predicate HoldsAt(rows: map<Id, Row>, parent: Id, except: set<Id>, id: Id, k: int)
  {
    id in rows && rows[id].parent == parent && id !in except && rows[id].position == k
  }

  /** Some child of `parent` outside `except` holds position k. */
  ghost predicate Occupied(rows: map<Id, Row>, parent: Id, except: set<Id>, k: int)
  {
    exists id :: HoldsAt(rows, parent, except, id, k)
  }

  /** The children of `parent`, leaving out `except`, hold the positions 1..n, each
      exactly once. */
  ghost predicate Contiguous(rows: map<Id, Row>, parent: Id, except: set<Id>, n: nat)
  {
    && (forall id :: id in rows && rows[id].parent == parent && id !in except ==> 1 <= rows[id].position <= n)
    && (forall a, b, k :: HoldsAt(rows, parent, except, a, k) && HoldsAt(rows, parent, except, b, k) ==> a == b)
    && (forall k :: 1 <= k <= n ==> Occupied(rows, parent, except, k))
  }

  /** The parent's children hold 1..n+1 with the item at `rank`, under the parent, and
      the siblings in the order of `sibs`. */
  ghost predicate Arranged(rows: map<Id, Row>, parent: Id, item: Id, rank: int, sibs: seq<Id>)
  {
    && Contiguous(rows, parent, {}, |sibs| + 1)
    && item in rows && rows[item] == Row(parent, rank)
    && forall i, j :: 0 <= i < j < |sibs| ==>
         sibs[i] in rows && sibs[j] in rows && rows[sibs[i]].position < rows[sibs[j]].position
  }

  /** The order in which the walk numbers the scope: the siblings with the item spliced in
      at rank min(p, n + 1), or the siblings alone when p < 1. */
  function Placed(sibs: seq<Id>, item: Id, p: int): seq<Id>
  {
    if p < 1 then sibs
    else if p <= |sibs| then sibs[..p - 1] + [item] + sibs[p - 1..]
    else sibs + [item]
  }

  /** The writes that number `order` 1, 2, 3, ... */
  function Numbered(order: seq<Id>): seq<Write>
  {
    seq(|order|, i requires 0 <= i < |order| => Write(order[i], i + 1))
  }

  /** Every write the walk issues for a clamped position p, in issue order. */
  function Plan(sibs: seq<Id>, item: Id, p: int): seq<Write>
  {
    Numbered(Placed(sibs, item, p))
  }

  /** How many writes of `plan` succeed before the first one that hits a faulty row. */
  function FirstFault(plan: seq<Write>, faulty: set<Id>): (k: nat)
    ensures k <= |plan|
    ensures forall i :: 0 <= i < k ==> plan[i].id !in faulty
    ensures k < |plan| ==> plan[k].id in faulty
  {
    if plan == [] then 0
    else if plan[0].id in faulty then 0
    else 1 + FirstFault(plan[1..], faulty)
  }

  /** One `updateAttributes`: the position, and the parent reference when `setParent`. */
  function Updated(rows: map<Id, Row>, parent: Id, setParent: bool, w: Write): map<Id, Row>
  {
    if w.id in rows then rows[w.id := Row(if setParent then parent else rows[w.id].parent, w.position)]
    else rows
  }

  /** The table after the given writes, one after the other. */
  function Applied(rows: map<Id, Row>, parent: Id, setParent: bool, ws: seq<Write>): map<Id, Row>
    decreases |ws|
  {
    if ws == [] then rows
    else Updated(Applied(rows, parent, setParent, ws[..|ws| - 1]), parent, setParent, ws[|ws| - 1])
  }

  /** What the walk ends with: the result, and the table after the writes before the first
      failing one (no write is issued after a failure). */
  function WalkEffect(rows: map<Id, Row>, faulty: set<Id>, parent: Id, item: Id, p: int,
                      setParent: bool, sibs: seq<Id>): (Outcome, map<Id, Row>)
  {
    var plan := Plan(sibs, item, p);
    var k := FirstFault(plan, faulty);
    (if k < |plan| then Rejected(StorageFault(plan[k].id)) else Resolved,
     Applied(rows, parent, setParent, plan[..k]))
  }

  /** `max + 1`, with a missing maximum read as 0. */
  function NextPosition(max: Option<int>): int
  {
    if max.None? then 1 else max.value + 1
  }

  /** One table of orderable items, updated in place; `faulty` names the rows whose
      update the storage refuses. */
  class Table {
    var rows: map<Id, Row>
    var faulty: set<Id>

    constructor (rows: map<Id, Row>, faulty: set<Id>)
      ensures this.rows == rows && this.faulty == faulty
    {
      this.rows := rows;
      this.faulty := faulty;
    }

    /** One position write (`savePosition`, `saveColumnPosition`, `saveTaskPosition`,
        `saveCardPosition`). */
    method Save(id: Id, position: int, parent: Id, setParent: bool) returns (r: Outcome)
      modifies this`rows
      ensures r == (if id in faulty then Rejected(StorageFault(id)) else Resolved)
      ensures rows == (if id in faulty then old(rows) else Updated(old(rows), parent, setParent, Write(id, position)))
    {
      if id in faulty {
        r := Rejected(StorageFault(id));
      } else {
        rows := Updated(rows, parent, setParent, Write(id, position));
        r := Resolved;
      }
    }

    /** Issues write number `position` of `plan`, continuing from the table after the writes
        before it. */
    method SaveNext(ghost rows0: map<Id, Row>, parent: Id, setParent: bool, ghost plan: seq<Write>,
                    id: Id, position: int) returns (r: Outcome)
      requires 1 <= position <= |plan| && plan[position - 1] == Write(id, position)
      requires rows == Applied(rows0, parent, setParent, plan[..position - 1])
      modifies this`rows
      ensures r == (if id in faulty then Rejected(StorageFault(id)) else Resolved)
      ensures id in faulty ==> rows == old(rows)
      ensures id !in faulty ==> rows == Applied(rows0, parent, setParent, plan[..position])
    {
      r := Save(id, position, parent, setParent);
      SavedStep(rows0, parent, setParent, plan, position - 1);
    }

    /** One round of `handleNext`: the item's write when its rank is reached, then the
        sibling's write. `offset` is the next position to hand out. */
    method Visit(ghost rows0: map<Id, Row>, parent: Id, item: Id, position: int, setParent: bool,
                 sibs: seq<Id>, index: nat, offset: int) returns (r: Outcome, next: int)
      requires index < |sibs|
      requires || (offset == index + 1 && (position < 1 || position >= offset))
               || (1 <= position < offset && offset == index + 2)
      requires forall i :: 0 <= i < offset - 1 ==> Plan(sibs, item, position)[i].id !in faulty
      requires rows == Applied(rows0, parent, setParent, Plan(sibs, item, position)[..offset - 1])
      modifies this`rows
      ensures !r.Resolved? ==> WalkEffect(rows0, faulty, parent, item, position, setParent, sibs) == (r, rows)
      ensures r.Resolved? ==>
        && (|| (next == index + 2 && (position < 1 || position >= next))
            || (1 <= position < next && next == index + 3))
        && (forall i :: 0 <= i < next - 1 ==> Plan(sibs, item, position)[i].id !in faulty)
        && rows == Applied(rows0, parent, setParent, Plan(sibs, item, position)[..next - 1])
    {
      ghost var plan := Plan(sibs, item, position);
      PlanLength(sibs, item, position);
      next := offset;
      if position == next {
        PlanItem(sibs, item, position);
        r := SaveNext(rows0, parent, setParent, plan, item, next);
        if r.Rejected? {
          WalkStopped(rows0, faulty, parent, item, position, setParent, sibs, next - 1);
          return;
        }
        next := next + 1;
      }
      PlanSibling(sibs, item, position, index, next - 1);
      r := SaveNext(rows0, parent, setParent, plan, sibs[index], next);
      if r.Rejected? {
        WalkStopped(rows0, faulty, parent, item, position, setParent, sibs, next - 1);
        return;
      }
      next := next + 1;
    }

    /** The `handleNext` walk over the siblings with the running `offset`, followed by the
        append step. */
    method Walk(parent: Id, item: Id, position: int, setParent: bool, sibs: seq<Id>) returns (r: Outcome)
      modifies this`rows
      ensures (r, rows) == WalkEffect(old(rows), faulty, parent, item, position, setParent, sibs)
    {
      ghost var rows0 := rows;
      ghost var plan := Plan(sibs, item, position);
      PlanLength(sibs, item, position);
      var offset, index := 1, 0;
      while index < |sibs|
        invariant 0 <= index <= |sibs|
        invariant || (offset == index + 1 && (position < 1 || position >= offset))
                  || (1 <= position < offset && offset == index + 2)
        invariant forall i :: 0 <= i < offset - 1 ==> plan[i].id !in faulty
        invariant rows == Applied(rows0, parent, setParent, plan[..offset - 1])
      {
        r, offset := Visit(rows0, parent, item, position, setParent, sibs, index, offset);
        if !r.Resolved? {
          return;
        }
        index := index + 1;
      }
      if position >= offset {
        PlanItem(sibs, item, position);
        r := SaveNext(rows0, parent, setParent, plan, item, offset);
        if r.Rejected? {
          WalkStopped(rows0, faulty, parent, item, position, setParent, sibs, offset - 1);
          return;
        }
      } else {
        r := Resolved;
      }
      WalkCompleted(rows0, faulty, parent, item, position, setParent, sibs);
    }
  }

  lemma PlanLength(sibs: seq<Id>, item: Id, p: int)
    ensures |Plan(sibs, item, p)| == |sibs| + (if p >= 1 then 1 else 0)
  {
  }

  /** The item's write: rank min(p, n + 1). */
  lemma PlanItem(sibs: seq<Id>, item: Id, p: int)
    requires p >= 1
    ensures var j := Min(p, |sibs| + 1) - 1;
      j < |Plan(sibs, item, p)| && Plan(sibs, item, p)[j] == Write(item, j + 1)
  {
  }

  /** The write of sibling `index`: one rank further once the item has been placed. */
  lemma PlanSibling(sibs: seq<Id>, item: Id, p: int, index: nat, j: nat)
    requires index < |sibs|
    requires (j == index && (p < 1 || j < p - 1)) || (1 <= p && p - 1 < j && j == index + 1)
    ensures j < |Plan(sibs, item, p)| && Plan(sibs, item, p)[j] == Write(sibs[index], j + 1)
  {
  }

  /** A walk that stops at write j: the writes before it are the effect. */
  lemma WalkStopped(rows: map<Id, Row>, faulty: set<Id>, parent: Id, item: Id, p: int,
                    setParent: bool, sibs: seq<Id>, j: nat)
    requires j < |Plan(sibs, item, p)| && Plan(sibs, item, p)[j].id in faulty
    requires forall i :: 0 <= i < j ==> Plan(sibs, item, p)[i].id !in faulty
    ensures WalkEffect(rows, faulty, parent, item, p, setParent, sibs)
         == (Rejected(StorageFault(Plan(sibs, item, p)[j].id)), Applied(rows, parent, setParent, Plan(sibs, item, p)[..j]))
  {
  }

  /** A walk without a failing write applies the whole plan. */
  lemma WalkCompleted(rows: map<Id, Row>, faulty: set<Id>, parent: Id, item: Id, p: int,
                      setParent: bool, sibs: seq<Id>)
    requires forall i :: 0 <= i < |Plan(sibs, item, p)| ==> Plan(sibs, item, p)[i].id !in faulty
    ensures WalkEffect(rows, faulty, parent, item, p, setParent, sibs)
         == (Resolved, Applied(rows, parent, setParent, Plan(sibs, item, p)))
  {
    var plan := Plan(sibs, item, p);
    assert plan[..|plan|] == plan;
  }

  /** A write at index j of the plan extends the applied prefix by one, or fails and
      leaves it. */
  lemma SavedStep(rows: map<Id, Row>, parent: Id, setParent: bool, plan: seq<Write>, j: nat)
    requires j < |plan|
    ensures Applied(rows, parent, setParent, plan[..j + 1])
         == Updated(Applied(rows, parent, setParent, plan[..j]), parent, setParent, plan[j])
  {
    assert plan[..j + 1][..j] == plan[..j];
  }

  // ---------------------------------------------------------------------------------
  // What the writes do to the table
  // ---------------------------------------------------------------------------------

  predicate DistinctIds(ws: seq<Write>)
  {
    forall i, j :: 0 <= i < j < |ws| ==> ws[i].id != ws[j].id
  }

  /** The parent reference row `r` has after a write of this walk. */
  function ParentAfter(parent: Id, setParent: bool, r: Row): Id
  {
    if setParent then parent else r.parent
  }

  /** Writes never add or drop rows. */
  lemma {:induction false} AppliedKeys(rows: map<Id, Row>, parent: Id, setParent: bool, ws: seq<Write>)
    ensures Applied(rows, parent, setParent, ws).Keys == rows.Keys
    decreases |ws|
  {
    if ws != [] {
      AppliedKeys(rows, parent, setParent, ws[..|ws| - 1]);
    }
  }

  /** A row that none of the writes names keeps its value. */
  lemma {:induction false} AppliedUntouched(rows: map<Id, Row>, parent: Id, setParent: bool, ws: seq<Write>, id: Id)
    requires id in rows
    requires forall i :: 0 <= i < |ws| ==> ws[i].id != id
    ensures id in Applied(rows, parent, setParent, ws) && Applied(rows, parent, setParent, ws)[id] == rows[id]
    decreases |ws|
  {
    if ws != [] {
      AppliedUntouched(rows, parent, setParent, ws[..|ws| - 1], id);
    }
  }

  /** With distinct ids, the row named by write i ends with that write's position. */
  lemma {:induction false} AppliedWritten(rows: map<Id, Row>, parent: Id, setParent: bool, ws: seq<Write>, i: nat)
    requires DistinctIds(ws) && i < |ws| && ws[i].id in rows
    ensures var after := Applied(rows, parent, setParent, ws);
      ws[i].id in after && after[ws[i].id] == Row(ParentAfter(parent, setParent, rows[ws[i].id]), ws[i].position)
    decreases |ws|
  {
    var front := ws[..|ws| - 1];
    if i == |ws| - 1 {
      AppliedUntouched(rows, parent, setParent, front, ws[i].id);
    } else {
      AppliedWritten(rows, parent, setParent, front, i);
    }
  }

  /** Without `setParent` no write touches a parent reference. */
  lemma {:induction false} AppliedKeepsParents(rows: map<Id, Row>, parent: Id, ws: seq<Write>, id: Id)
    requires id in rows
    ensures id in Applied(rows, parent, false, ws) && Applied(rows, parent, false, ws)[id].parent == rows[id].parent
    decreases |ws|
  {
    if ws != [] {
      AppliedKeepsParents(rows, parent, ws[..|ws| - 1], id);
    }
  }

  /** The walk's order holds the siblings, and the item unless p < 1, each once. */
  lemma PlacedDistinct(sibs: seq<Id>, item: Id, p: int)
    requires Distinct(sibs) && item !in sibs
    ensures Distinct(Placed(sibs, item, p))
    ensures DistinctIds(Plan(sibs, item, p))
    ensures forall x :: x in Placed(sibs, item, p) <==> x in sibs || (p >= 1 && x == item)
  {
    var o := Placed(sibs, item, p);
    if 1 <= p <= |sibs| {
      assert sibs == sibs[..p - 1] + sibs[p - 1..];
      forall i, j | 0 <= i < j < |o| ensures o[i] != o[j] {
        if i < p - 1 && j > p - 1 {
          assert o[j] == sibs[j - 1];
        } else if i > p - 1 {
          assert o[i] == sibs[i - 1] && o[j] == sibs[j - 1];
        }
      }
    }
    assert forall i :: 0 <= i < |o| ==> Plan(sibs, item, p)[i].id == o[i];
  }

  /** The position the walk gives sibling i of n: its own rank, or one further once the
      item's rank min(p, n + 1) has been handed out. */
  function SiblingRank(p: int, n: nat, i: nat): int
  {
    if p >= 1 && i + 1 >= Min(p, n + 1) then i + 2 else i + 1
  }

  /** The item's row after a successful walk: rank min(p, n + 1). */
  lemma ReorderItem(rows: map<Id, Row>, parent: Id, item: Id, p: int, setParent: bool, sibs: seq<Id>)
    requires Distinct(sibs) && item !in sibs && p >= 1 && item in rows
    ensures var after := Applied(rows, parent, setParent, Plan(sibs, item, p));
      item in after && after[item] == Row(ParentAfter(parent, setParent, rows[item]), Min(p, |sibs| + 1))
  {
    PlacedDistinct(sibs, item, p);
    PlanItem(sibs, item, p);
    AppliedWritten(rows, parent, setParent, Plan(sibs, item, p), Min(p, |sibs| + 1) - 1);
  }

  /** Sibling i's row after a successful walk: its rank among the siblings, one further
      from the item's rank on. */
  lemma ReorderSibling(rows: map<Id, Row>, parent: Id, item: Id, p: int, setParent: bool, sibs: seq<Id>, i: nat)
    requires Distinct(sibs) && item !in sibs && i < |sibs| && sibs[i] in rows
    ensures var after := Applied(rows, parent, setParent, Plan(sibs, item, p));
      && sibs[i] in after
      && after[sibs[i]] == Row(ParentAfter(parent, setParent, rows[sibs[i]]), SiblingRank(p, |sibs|, i))
  {
    var j := SiblingRank(p, |sibs|, i) - 1;
    PlacedDistinct(sibs, item, p);
    PlanSibling(sibs, item, p, i, j);
    AppliedWritten(rows, parent, setParent, Plan(sibs, item, p), j);
  }

  /** Rows the walk does not order are left as they were, whatever write fails: rows of
      other parents, and the item itself when p < 1. */
  lemma ReorderOthers(rows: map<Id, Row>, faulty: set<Id>, parent: Id, item: Id, p: int, setParent: bool,
                      sibs: seq<Id>, id: Id)
    requires Distinct(sibs) && item !in sibs && id in rows && id !in sibs && (p < 1 || id != item)
    ensures var after := WalkEffect(rows, faulty, parent, item, p, setParent, sibs).1;
      id in after && after[id] == rows[id]
  {
    var plan := Plan(sibs, item, p);
    var k := FirstFault(plan, faulty);
    PlacedDistinct(sibs, item, p);
    assert forall i :: 0 <= i < |plan| ==> plan[i].id == Placed(sibs, item, p)[i];
    AppliedUntouched(rows, parent, setParent, plan[..k], id);
  }

  // ---------------------------------------------------------------------------------
  // The properties of the repositioning
  // ---------------------------------------------------------------------------------

  /** A successful walk with p >= 1 leaves the parent's children (the siblings and the
      item) on 1..n+1, each position used once. */
  lemma ReorderContiguous(rows: map<Id, Row>, parent: Id, item: Id, p: int, setParent: bool, sibs: seq<Id>)
    requires IsSiblingRead(rows, parent, item, sibs) && item in rows && p >= 1
    requires setParent || rows[item].parent == parent
    ensures Contiguous(Applied(rows, parent, setParent, Plan(sibs, item, p)), parent, {}, |sibs| + 1)
  {
    ReorderInRange(rows, parent, item, p, setParent, sibs);
    ReorderUnique(rows, parent, item, p, setParent, sibs);
    ReorderOccupied(rows, parent, item, p, setParent, sibs);
  }

  /** The ranks the walk hands the siblings lie in 1..n+1, miss the item's rank and are
      pairwise different. */
  lemma SiblingRankBounds(p: int, n: nat, i: nat, j: nat)
    requires p >= 1 && i < n && j < n
    ensures 1 <= SiblingRank(p, n, i) <= n + 1 && SiblingRank(p, n, i) != Min(p, n + 1)
    ensures SiblingRank(p, n, i) == SiblingRank(p, n, j) ==> i == j
  {
  }

  lemma ReorderInRange(rows: map<Id, Row>, parent: Id, item: Id, p: int, setParent: bool, sibs: seq<Id>)
    requires IsSiblingRead(rows, parent, item, sibs) && item in rows && p >= 1
    requires setParent || rows[item].parent == parent
    ensures var after := Applied(rows, parent, setParent, Plan(sibs, item, p));
      forall id :: id in after && after[id].parent == parent ==> 1 <= after[id].position <= |sibs| + 1
  {
    var after := Applied(rows, parent, setParent, Plan(sibs, item, p));
    forall id | id in after && after[id].parent == parent ensures 1 <= after[id].position <= |sibs| + 1 {
      var i := ChildAfter(rows, parent, item, p, setParent, sibs, id);
      if i >= 0 {
        SiblingRankBounds(p, |sibs|, i, i);
      }
    }
  }

  lemma ReorderUnique(rows: map<Id, Row>, parent: Id, item: Id, p: int, setParent: bool, sibs: seq<Id>)
    requires IsSiblingRead(rows, parent, item, sibs) && item in rows && p >= 1
    requires setParent || rows[item].parent == parent
    ensures var after := Applied(rows, parent, setParent, Plan(sibs, item, p));
      forall a, b, k :: HoldsAt(after, parent, {}, a, k) && HoldsAt(after, parent, {}, b, k) ==> a == b
  {
    var after := Applied(rows, parent, setParent, Plan(sibs, item, p));
    forall a, b, k | HoldsAt(after, parent, {}, a, k) && HoldsAt(after, parent, {}, b, k) ensures a == b {
      var i := ChildAfter(rows, parent, item, p, setParent, sibs, a);
      var j := ChildAfter(rows, parent, item, p, setParent, sibs, b);
      if i >= 0 && j >= 0 {
        SiblingRankBounds(p, |sibs|, i, j);
      } else if i >= 0 {
        SiblingRankBounds(p, |sibs|, i, i);
      } else if j >= 0 {
        SiblingRankBounds(p, |sibs|, j, j);
      }
    }
  }

  lemma ReorderOccupied(rows: map<Id, Row>, parent: Id, item: Id, p: int, setParent: bool, sibs: seq<Id>)
    requires IsSiblingRead(rows, parent, item, sibs) && item in rows && p >= 1
    requires setParent || rows[item].parent == parent
    ensures var after := Applied(rows, parent, setParent, Plan(sibs, item, p));
      forall k :: 1 <= k <= |sibs| + 1 ==> Occupied(after, parent, {}, k)
  {
    var after := Applied(rows, parent, setParent, Plan(sibs, item, p));
    var n := |sibs|;
    forall k | 1 <= k <= n + 1 ensures Occupied(after, parent, {}, k) {
      if k == Min(p, n + 1) {
        ReorderItem(rows, parent, item, p, setParent, sibs);
        assert HoldsAt(after, parent, {}, item, k);
      } else {
        var i := if k < Min(p, n + 1) then k - 1 else k - 2;
        ReorderSibling(rows, parent, item, p, setParent, sibs, i);
        assert HoldsAt(after, parent, {}, sibs[i], k);
      }
    }
  }

  /** Every child of the parent after a successful walk with p >= 1 is the item (index
      -1) or sibling i, at the rank the walk gave it. */
  lemma ChildAfter(rows: map<Id, Row>, parent: Id, item: Id, p: int, setParent: bool, sibs: seq<Id>, id: Id)
    returns (i: int)
    requires IsSiblingRead(rows, parent, item, sibs) && item in rows && p >= 1
    requires setParent || rows[item].parent == parent
    requires var after := Applied(rows, parent, setParent, Plan(sibs, item, p)); id in after && after[id].parent == parent
    ensures var after := Applied(rows, parent, setParent, Plan(sibs, item, p));
      || (i == -1 && id == item && after[id].position == Min(p, |sibs| + 1))
      || (0 <= i < |sibs| && sibs[i] == id && after[id].position == SiblingRank(p, |sibs|, i))
  {
    AppliedKeys(rows, parent, setParent, Plan(sibs, item, p));
    if id == item {
      ReorderItem(rows, parent, item, p, setParent, sibs);
      i := -1;
    } else if id in sibs {
      i :| 0 <= i < |sibs| && sibs[i] == id;
      ReorderSibling(rows, parent, item, p, setParent, sibs, i);
    } else {
      ReorderOthers(rows, {}, parent, item, p, setParent, sibs, id);
      WalkCompleted(rows, {}, parent, item, p, setParent, sibs);
      assert false;
    }
  }

  /** The siblings keep the order of the read (ascending old position) and the item lands
      after exactly the first min(p, n + 1) - 1 of them. */
  lemma ReorderKeepsOrder(rows: map<Id, Row>, parent: Id, item: Id, p: int, setParent: bool, sibs: seq<Id>, i: nat, j: nat)
    requires IsSiblingRead(rows, parent, item, sibs) && item in rows && p >= 1 && i < j < |sibs|
    ensures var after := Applied(rows, parent, setParent, Plan(sibs, item, p));
      && rows[sibs[i]].position <= rows[sibs[j]].position
      && sibs[i] in after && sibs[j] in after && item in after
      && after[sibs[i]].position < after[sibs[j]].position
      && (after[sibs[i]].position < after[item].position <==> i + 1 < Min(p, |sibs| + 1))
  {
    ReorderSibling(rows, parent, item, p, setParent, sibs, i);
    ReorderSibling(rows, parent, item, p, setParent, sibs, j);
    ReorderItem(rows, parent, item, p, setParent, sibs);
  }

  /** With p < 1 the item is never written and the other children are renumbered 1..n. */
  lemma ReorderZeroCompacts(rows: map<Id, Row>, parent: Id, item: Id, p: int, setParent: bool, sibs: seq<Id>)
    requires IsSiblingRead(rows, parent, item, sibs) && p < 1
    ensures var after := Applied(rows, parent, setParent, Plan(sibs, item, p));
      && Contiguous(after, parent, {item}, |sibs|)
      && (item in rows ==> item in after && after[item] == rows[item])
  {
    var after := Applied(rows, parent, setParent, Plan(sibs, item, p));
    var n := |sibs|;
    WalkCompleted(rows, {}, parent, item, p, setParent, sibs);
    if item in rows {
      ReorderOthers(rows, {}, parent, item, p, setParent, sibs, item);
    }
    forall id | id in after && after[id].parent == parent && id != item ensures 1 <= after[id].position <= n {
      var i := CompactedChild(rows, parent, item, p, setParent, sibs, id);
    }
    forall a, b, k | HoldsAt(after, parent, {item}, a, k) && HoldsAt(after, parent, {item}, b, k) ensures a == b {
      var i := CompactedChild(rows, parent, item, p, setParent, sibs, a);
      var j := CompactedChild(rows, parent, item, p, setParent, sibs, b);
    }
    forall k | 1 <= k <= n ensures Occupied(after, parent, {item}, k) {
      ReorderSibling(rows, parent, item, p, setParent, sibs, k - 1);
      assert HoldsAt(after, parent, {item}, sibs[k - 1], k);
    }
  }

  /** Every child of the parent other than the item after a compaction is sibling i, at
      position i + 1. */
  lemma CompactedChild(rows: map<Id, Row>, parent: Id, item: Id, p: int, setParent: bool, sibs: seq<Id>, id: Id)
    returns (i: nat)
    requires IsSiblingRead(rows, parent, item, sibs) && p < 1 && id != item
    requires var after := Applied(rows, parent, setParent, Plan(sibs, item, p)); id in after && after[id].parent == parent
    ensures var after := Applied(rows, parent, setParent, Plan(sibs, item, p));
      i < |sibs| && sibs[i] == id && after[id].position == i + 1
  {
    AppliedKeys(rows, parent, setParent, Plan(sibs, item, p));
    if id in sibs {
      i :| 0 <= i < |sibs| && sibs[i] == id;
      ReorderSibling(rows, parent, item, p, setParent, sibs, i);
    } else {
      ReorderOthers(rows, {}, parent, item, p, setParent, sibs, id);
      WalkCompleted(rows, {}, parent, item, p, setParent, sibs);
      assert false;
    }
  }

  /** Whatever write fails, the walk changes no row outside the parent's children and the
      item, adds or drops no row, and changes a parent reference only when `setParent`. */
  lemma ReorderFrame(rows: map<Id, Row>, faulty: set<Id>, parent: Id, item: Id, p: int, setParent: bool,
                     sibs: seq<Id>, id: Id)
    requires IsSiblingRead(rows, parent, item, sibs) && id in rows
    ensures var after := WalkEffect(rows, faulty, parent, item, p, setParent, sibs).1;
      && after.Keys == rows.Keys
      && (rows[id].parent != parent && id != item ==> after[id] == rows[id])
      && (!setParent ==> after[id].parent == rows[id].parent)
  {
    var plan := Plan(sibs, item, p);
    var k := FirstFault(plan, faulty);
    AppliedKeys(rows, parent, setParent, plan[..k]);
    if rows[id].parent != parent && id != item {
      ReorderOthers(rows, faulty, parent, item, p, setParent, sibs, id);
    }
    if !setParent {
      AppliedKeepsParents(rows, parent, plan[..k], id);
    }
  }

  /** The walk is rejected exactly when one of its writes hits a faulty row, and then the
      rows named by that write and by every later one are left as they were: nothing after
      a failing write is issued. */
  lemma ReorderStopsAtFault(rows: map<Id, Row>, faulty: set<Id>, parent: Id, item: Id, p: int, setParent: bool,
                            sibs: seq<Id>, j: nat)
    requires Distinct(sibs) && item !in sibs
    ensures var plan := Plan(sibs, item, p);
      (WalkEffect(rows, faulty, parent, item, p, setParent, sibs).0.Rejected? <==> exists i :: 0 <= i < |plan| && plan[i].id in faulty)
    ensures var plan := Plan(sibs, item, p);
      var after := WalkEffect(rows, faulty, parent, item, p, setParent, sibs).1;
      j < |plan| && plan[j].id in faulty ==>
        forall i :: j <= i < |plan| && plan[i].id in rows ==> plan[i].id in after && after[plan[i].id] == rows[plan[i].id]
  {
    var plan := Plan(sibs, item, p);
    var k := FirstFault(plan, faulty);
    PlacedDistinct(sibs, item, p);
    if j < |plan| && plan[j].id in faulty {
      forall i | j <= i < |plan| && plan[i].id in rows
        ensures plan[i].id in Applied(rows, parent, setParent, plan[..k])
             && Applied(rows, parent, setParent, plan[..k])[plan[i].id] == rows[plan[i].id]
      {
        AppliedUntouched(rows, parent, setParent, plan[..k], plan[i].id);
      }
    }
  }

  /** `max + 1` lies above every child already there, and is 1 for a parent without any. */
  lemma NextPositionAbove(rows: map<Id, Row>, parent: Id, max: Option<int>, id: Id)
    requires IsMaxPosition(rows, parent, max)
    ensures id in rows && rows[id].parent == parent ==> rows[id].position < NextPosition(max)
    ensures max.None? ==> NextPosition(max) == 1
  {
  }

  /** Appending at `max + 1` to children on 1..n keeps them contiguous on 1..n+1. */
  lemma AppendContiguous(rows: map<Id, Row>, parent: Id, n: nat, max: Option<int>, id: Id)
    requires Contiguous(rows, parent, {}, n) && IsMaxPosition(rows, parent, max) && id !in rows
    ensures NextPosition(max) == n + 1
    ensures Contiguous(rows[id := Row(parent, NextPosition(max))], parent, {}, n + 1)
  {
    if n > 0 {
      assert Occupied(rows, parent, {}, n);
      var top :| HoldsAt(rows, parent, {}, top, n);
    }
    var after := rows[id := Row(parent, n + 1)];
    forall a, b, k | HoldsAt(after, parent, {}, a, k) && HoldsAt(after, parent, {}, b, k) ensures a == b {
      if a != id && b != id {
        assert HoldsAt(rows, parent, {}, a, k) && HoldsAt(rows, parent, {}, b, k);
      }
    }
    forall k | 1 <= k <= n + 1 ensures Occupied(after, parent, {}, k) {
      if k <= n {
        assert Occupied(rows, parent, {}, k);
        var holder :| HoldsAt(rows, parent, {}, holder, k);
        assert HoldsAt(after, parent, {}, holder, k);
      } else {
        assert HoldsAt(after, parent, {}, id, k);
      }
    }
  }

  // ---------------------------------------------------------------------------------
  // Guards, then the walk: the shape all four repositioning routines share
  // ---------------------------------------------------------------------------------

  /** A negative position is clamped to 0. */
  function ClampPosition(n: int): (p: int)
    ensures p >= 0 && (n >= 0 ==> p == n) && (n < 0 ==> p == 0)
  {
    if n < 0 then 0 else n
  }

  /** The guards let the call reach the sibling read: no parent/item refusal, and a
      numeric position. */
  predicate Proceeds(refusal: Option<string>, position: Rank)
  {
    refusal.None? && position.Rank?
  }

  /** A repositioning routine: the refusal of its parent/item checks, then 'Position must
      be numeric', then the walk at the clamped position. */
  function Repositioned(rows: map<Id, Row>, faulty: set<Id>, refusal: Option<string>, parent: Id, item: Id,
                        position: Rank, setParent: bool, sibs: seq<Id>): (Outcome, map<Id, Row>)
  {
    if refusal.Some? then (Rejected(Message(refusal.value)), rows)
    else if position.NotNumber? then (Rejected(Message(NotNumeric)), rows)
    else WalkEffect(rows, faulty, parent, item, ClampPosition(position.n), setParent, sibs)
  }

  /** A single position write with its own checks (`saveColumnPosition`,
      `saveTaskPosition`, `saveCardPosition`): the refusal, the numeric check, the clamp,
      then the update. */
  function WriteEffect(rows: map<Id, Row>, faulty: set<Id>, refusal: Option<string>, id: Id, position: Rank,
                       parent: Id, setParent: bool): (Outcome, map<Id, Row>)
  {
    if refusal.Some? then (Rejected(Message(refusal.value)), rows)
    else if position.NotNumber? then (Rejected(Message(NotNumeric)), rows)
    else if id in faulty then (Rejected(StorageFault(id)), rows)
    else (Resolved, Updated(rows, parent, setParent, Write(id, ClampPosition(position.n))))
  }

  /** A checked write that goes through sets exactly the clamped position (and the parent
      reference when `setParent`) of that one row. */
  lemma WriteSetsOneRow(rows: map<Id, Row>, faulty: set<Id>, refusal: Option<string>, id: Id, position: Rank,
                        parent: Id, setParent: bool, other: Id)
    requires WriteEffect(rows, faulty, refusal, id, position, parent, setParent).0 == Resolved && id in rows
    ensures var after := WriteEffect(rows, faulty, refusal, id, position, parent, setParent).1;
      && after.Keys == rows.Keys
      && after[id] == Row(ParentAfter(parent, setParent, rows[id]), if position.n < 0 then 0 else position.n)
      && (other in rows && other != id ==> after[other] == rows[other])
  {
  }

  /** A managed transaction: the writes stay when the work resolves, and are rolled back
      otherwise. */
  function Transacted(before: map<Id, Row>, effect: (Outcome, map<Id, Row>)): (e: (Outcome, map<Id, Row>))
    ensures e.0 == effect.0
    ensures e.1 == before || (e.0 == Resolved && e.1 == effect.1)
    ensures e.0 != Resolved ==> e.1 == before
  {
    if effect.0 == Resolved then effect else (effect.0, before)
  }

  /** Every guard decides before the sibling read: a refused call is rejected with the
      guard's message whatever the read would have returned, and writes nothing. */
  lemma RefusedBeforeRead(rows: map<Id, Row>, faulty: set<Id>, refusal: Option<string>, parent: Id, item: Id,
                          position: Rank, setParent: bool, sibs: seq<Id>, other: seq<Id>)
    requires !Proceeds(refusal, position)
    ensures var (r, after) := Repositioned(rows, faulty, refusal, parent, item, position, setParent, sibs);
      && after == rows
      && (r, after) == Repositioned(rows, faulty, refusal, parent, item, position, setParent, other)
      && r == Rejected(Message(if refusal.Some? then refusal.value else NotNumeric))
  {
  }

  /** For p >= 1 a successful call leaves the parent's children on 1..n+1, the item at
      min(p, n + 1) and the siblings, in the order of the read, around it. */
  lemma RepositionArranges(rows: map<Id, Row>, faulty: set<Id>, refusal: Option<string>, parent: Id, item: Id,
                           position: Rank, setParent: bool, sibs: seq<Id>)
    requires IsSiblingRead(rows, parent, item, sibs)
    requires item in rows && (setParent || rows[item].parent == parent)
    requires position.Rank? && position.n >= 1
    requires Repositioned(rows, faulty, refusal, parent, item, position, setParent, sibs).0 == Resolved
    ensures Arranged(Repositioned(rows, faulty, refusal, parent, item, position, setParent, sibs).1,
                     parent, item, Min(position.n, |sibs| + 1), sibs)
  {
    if refusal.None? {
      var p, n := position.n, |sibs|;
      var plan := Plan(sibs, item, p);
      var k := FirstFault(plan, faulty);
      assert k == |plan|;
      assert plan[..k] == plan;
      ReorderContiguous(rows, parent, item, p, setParent, sibs);
      ReorderItem(rows, parent, item, p, setParent, sibs);
      forall i, j | 0 <= i < j < n
        ensures var after := Applied(rows, parent, setParent, plan);
          sibs[i] in after && sibs[j] in after && after[sibs[i]].position < after[sibs[j]].position
      {
        ReorderKeepsOrder(rows, parent, item, p, setParent, sibs, i, j);
      }
    }
  }

  /** A position of 0 or below leaves the item's row untouched and renumbers the other
      children 1..n in the order of the read. */
  lemma RepositionRemoves(rows: map<Id, Row>, faulty: set<Id>, refusal: Option<string>, parent: Id, item: Id,
                          position: Rank, setParent: bool, sibs: seq<Id>)
    requires IsSiblingRead(rows, parent, item, sibs)
    requires position.Rank? && position.n <= 0
    requires Repositioned(rows, faulty, refusal, parent, item, position, setParent, sibs).0 == Resolved
    ensures var after := Repositioned(rows, faulty, refusal, parent, item, position, setParent, sibs).1;
      && Contiguous(after, parent, {item}, |sibs|)
      && (item in rows ==> item in after && after[item] == rows[item])
      && forall i :: 0 <= i < |sibs| ==> sibs[i] in after && after[sibs[i]].position == i + 1
  {
    if refusal.None? {
      var plan := Plan(sibs, item, 0);
      var k := FirstFault(plan, faulty);
      assert k == |plan|;
      assert plan[..k] == plan;
      ReorderZeroCompacts(rows, parent, item, 0, setParent, sibs);
      forall i | 0 <= i < |sibs| ensures sibs[i] in Applied(rows, parent, setParent, plan)
        && Applied(rows, parent, setParent, plan)[sibs[i]].position == i + 1
      {
        ReorderSibling(rows, parent, item, 0, setParent, sibs, i);
      }
    }
  }

  /** Whatever the outcome, only the parent's children and the item may change, no row is
      added or dropped, and parent references change only when `setParent`. */
  lemma RepositionScope(rows: map<Id, Row>, faulty: set<Id>, refusal: Option<string>, parent: Id, item: Id,
                        position: Rank, setParent: bool, sibs: seq<Id>, id: Id)
    requires Proceeds(refusal, position) ==> IsSiblingRead(rows, parent, item, sibs)
    requires id in rows
    ensures var after := Repositioned(rows, faulty, refusal, parent, item, position, setParent, sibs).1;
      && after.Keys == rows.Keys
      && (rows[id].parent != parent && id != item ==> after[id] == rows[id])
      && (!setParent ==> after[id].parent == rows[id].parent)
  {
    if Proceeds(refusal, position) {
      ReorderFrame(rows, faulty, parent, item, ClampPosition(position.n), setParent, sibs, id);
    }
  }

  // ---------------------------------------------------------------------------------
  // Two walks in a row: what the cross-column move relies on
  // ---------------------------------------------------------------------------------

  /** A write leaves a parent reference as it was or sets it to the walk's parent. */
  lemma {:induction false} AppliedParentIn(rows: map<Id, Row>, parent: Id, setParent: bool, ws: seq<Write>, id: Id)
    requires id in rows
    ensures id in Applied(rows, parent, setParent, ws)
    ensures Applied(rows, parent, setParent, ws)[id].parent in {rows[id].parent, parent}
    decreases |ws|
  {
    if ws != [] {
      AppliedParentIn(rows, parent, setParent, ws[..|ws| - 1], id);
    }
  }

  /** A walk over one parent leaves the sibling read of another parent valid: its
      children keep their rows and it gains none. */
  lemma SiblingReadKept(rows: map<Id, Row>, faulty: set<Id>, p: Id, item: Id, pos: int, setParent: bool,
                        sibsP: seq<Id>, q: Id, sibsQ: seq<Id>)
    requires IsSiblingRead(rows, p, item, sibsP) && IsSiblingRead(rows, q, item, sibsQ) && p != q
    ensures IsSiblingRead(WalkEffect(rows, faulty, p, item, pos, setParent, sibsP).1, q, item, sibsQ)
  {
    var after := WalkEffect(rows, faulty, p, item, pos, setParent, sibsP).1;
    forall i | 0 <= i < |sibsQ| ensures sibsQ[i] in after && after[sibsQ[i]] == rows[sibsQ[i]] {
      ReorderFrame(rows, faulty, p, item, pos, setParent, sibsP, sibsQ[i]);
    }
    forall id | id in after && after[id].parent == q && id != item ensures id in sibsQ {
      AppliedKeys(rows, p, setParent, Plan(sibsP, item, pos)[..FirstFault(Plan(sibsP, item, pos), faulty)]);
      ReorderFrame(rows, faulty, p, item, pos, setParent, sibsP, id);
      var plan := Plan(sibsP, item, pos);
      AppliedParentIn(rows, p, setParent, plan[..FirstFault(plan, faulty)], id);
    }
  }

  /** Contiguity of a parent's children (all but `gone`) carries over to a later table in
      which those children kept their rows, `gone` left the parent, and nobody joined. */
  lemma ContiguousKept(before: map<Id, Row>, after: map<Id, Row>, parent: Id, gone: Id, n: nat)
    requires Contiguous(before, parent, {gone}, n)
    requires forall id :: id in before && before[id].parent == parent && id != gone ==> id in after && after[id] == before[id]
    requires forall id :: id in after && after[id].parent == parent ==> id in before && before[id].parent == parent && id != gone
    ensures Contiguous(after, parent, {}, n)
  {
    forall a, b, k | HoldsAt(after, parent, {}, a, k) && HoldsAt(after, parent, {}, b, k) ensures a == b {
      assert HoldsAt(before, parent, {gone}, a, k) && HoldsAt(before, parent, {gone}, b, k);
    }
    forall k | 1 <= k <= n ensures Occupied(after, parent, {}, k) {
      assert Occupied(before, parent, {gone}, k);
      var holder :| HoldsAt(before, parent, {gone}, holder, k);
      assert HoldsAt(after, parent, {}, holder, k);
    }
  }
}
