# plakativ: a model of the repositioning engine and its callers

plakativ is a kanban board server. A board holds columns. A column holds cards, and a card
holds tasks. Each child has a `position` among the children of its parent. This project
models in Dafny how the server keeps those positions. It covers:

- the shared `reorder` helper;
- the three copy-pasted repositioning walks (columns in a board, tasks in a card, and the
  older card copy that also writes `ColumnId`);
- each kind's `make` (append after the largest position) and `moveTo` (validate, clamp,
  reorder inside a transaction);
- the card `moveTo` across columns and the card `patch` built on RFC 6902 `replace`
  operations.

Beside that core it models these pure parts of the server:

- the user-list query normalisers;
- the board-access middleware as a decision function;
- the label and user models' validators and `make`;
- the board API's participant list.

How the model is built:

- A children table is a class, `Store.Table`. Its field `rows: map<Id, Row>` maps a child
  to its parent and position. A set `faulty` names the rows whose write fails.
- The sibling read (`findAll` ordered by position) and the `max(position)` query are done
  by the database. They enter as parameters, constrained by the ghost predicates
  `Store.IsSiblingRead` and `Store.IsMaxPosition`.
- The walk `Store.Table.Walk` is an imperative loop that mirrors the source's
  `offset`/`index` counters. It is proved equal to `Store.WalkEffect`, which is the plan
  `Numbered(Placed(sibs, item, p))` applied up to the first failing write.
- The arrangement properties are lemmas about that function: positions 1..n+1, each used
  once, the item at min(p, n+1), siblings in order, other parents untouched.
- Every entry point is a method whose `ensures` ties its result and new state to an
  `...Effect` function of the old state. The lemmas beside it state what the source promises
  about that function.
- Transactions restore the snapshot taken before the body when the body fails.

Modules: `Entities` (model instances, values, ranks), `JsText` (JavaScript whitespace and
`trim`), `Validation` (Sequelize validator messages), `Store` (the table and the walk),
`Reorder` (server/models/helpers.js), `Columns`, `Tasks`, `Cards` (server/models), `LegacyCards`
(models/card.js), `UserQuery` (server/routes/users.js), `BoardAccess`, `Labels`, `Users`,
`BoardsApi`.

## Model

| member | source | states |
|---|---|---|
| Store.FirstFault | server/models/helpers.js:93-112 | the index of the first write of the plan that fails: every earlier write succeeds, and the write at that index, if any, fails |
| Store.Table.Save | server/models/helpers.js:64-84 | one position write. A failing row gives the storage fault and the table is unchanged. Otherwise exactly that row gets the new position, and the new parent only when the parent may be changed |
| Store.Table.SaveNext | server/models/helpers.js:93-112 | one chained write of the plan: on success the table equals the plan applied one step further; on failure it is unchanged |
| Store.Table.Visit | server/models/helpers.js:89-114 | one `handleNext` step. It writes the item first when `offset` equals the position, then the sibling. The counters and the table keep the walk's invariant, and a failure ends the walk with the walk's effect |
| Store.Table.Walk | server/models/helpers.js:86-146 | the whole walk and append step: the result and the new table equal the plan applied up to its first failing write |
| Store.PlanLength | server/models/helpers.js:137-145 | the plan writes every sibling, and the item only when the position is at least 1 |
| Store.PlanItem | server/models/helpers.js:91-103 | for p >= 1 the item is written at min(p, n+1) |
| Store.PlanSibling | server/models/helpers.js:104-112 | a sibling is written at its index + 1 before the item's slot and at its index + 2 after it |
| Store.WalkStopped | server/models/helpers.js:93-112 | a failing write rejects with its storage fault, and only the writes before it have happened |
| Store.WalkCompleted | server/models/helpers.js:139-146 | with no failing write the call resolves and the whole plan is applied |
| Store.SavedStep | server/models/helpers.js:93-112 | applying one more write of the plan is one more row update |
| Store.AppliedKeys | server/models/helpers.js:64-84 | writes never add or remove rows |
| Store.AppliedUntouched | server/models/helpers.js:122-129 | a row that no write names keeps its parent and position |
| Store.AppliedWritten | server/models/helpers.js:64-84 | with distinct targets, a written row ends at the position written, with its parent set only when the parent may be changed |
| Store.AppliedKeepsParents | server/models/helpers.js:71-77 | without `canChangeParent` no write changes a parent |
| Store.AppliedParentIn | server/models/helpers.js:71-77 | after the writes a row's parent is its old parent or the parent being ordered |
| Store.PlacedDistinct | server/models/helpers.js:89-143 | the item placed among distinct siblings gives distinct write targets, namely the siblings plus the item when p >= 1 |
| Store.ReorderItem | server/models/helpers.js:91-103 | for p >= 1 the item ends at min(p, n+1) |
| Store.ReorderSibling | server/models/helpers.js:104-112 | the sibling with index i ends at i+1 before the item's slot and at i+2 from it on |
| Store.ReorderOthers | server/models/helpers.js:122-129 | rows that are neither siblings nor the written item are not changed |
| Store.ReorderContiguous | server/models/helpers.js:86-145 | for p >= 1 the parent's children hold exactly the positions 1..n+1, each once |
| Store.SiblingRankBounds | server/models/helpers.js:104-112 | sibling positions lie in 1..n+1, avoid the item's slot and are pairwise distinct |
| Store.ReorderInRange | server/models/helpers.js:86-145 | every child of the parent ends in 1..n+1 |
| Store.ReorderUnique | server/models/helpers.js:86-145 | no two children of the parent share a position |
| Store.ReorderOccupied | server/models/helpers.js:86-145 | every position in 1..n+1 is held by some child of the parent |
| Store.ChildAfter | server/models/helpers.js:89-143 | every child of the parent afterwards is either the item at min(p, n+1) or a sibling at its rank |
| Store.ReorderKeepsOrder | server/models/helpers.js:89-113 | siblings keep their ascending old-position order, and a sibling lies before the item exactly when its index + 1 is below the item's slot |
| Store.ReorderZeroCompacts | server/models/helpers.js:117-145 | a position below 1 renumbers the siblings 1..n and leaves the item's row as it was |
| Store.CompactedChild | server/models/helpers.js:137-145 | after compaction every other child of the parent is the sibling with index i, at position i+1 |
| Store.ReorderFrame | server/models/helpers.js:122-129 | no row appears or disappears, rows of other parents are unchanged, and without `canChangeParent` no parent changes |
| Store.ReorderStopsAtFault | server/models/helpers.js:93-112 | the call rejects exactly when some write fails, and no write after the failing one is issued |
| Store.NextPositionAbove | server/models/column.js:151-155 | the `max(position)+1` rule gives a position above every child's, and 1 for a parent without children |
| Store.AppendContiguous | server/models/column.js:151-155 | appending at max+1 to children holding 1..n gives children holding 1..n+1 |
| Store.ClampPosition | server/models/helpers.js:120 | a negative position becomes 0, and others are kept |
| Store.WriteSetsOneRow | server/models/column.js:87-99 | a single position write sets that row only (a negative position becomes 0) and no other row changes |
| Store.Transacted | server/models/column.js:182-194 | the transaction keeps the body's result; on failure the table is the one from before the body |
| Store.RefusedBeforeRead | server/models/column.js:47-50 | a refused call rejects with its message before the siblings are read, and nothing is written |
| Store.RepositionArranges | server/models/column.js:15-78 | a successful repositioning with p >= 1 leaves the parent's children arranged on 1..n+1 with the item at min(p, n+1) and the siblings in order |
| Store.RepositionRemoves | server/models/column.js:15-78 | a successful repositioning with p <= 0 renumbers the siblings 1..n in their order and leaves the item alone |
| Store.RepositionScope | server/models/column.js:52-59 | whatever the outcome, only the parent's children and the item may change, and the parent only when it may be changed |
| Store.SiblingReadKept | server/models/card.js:269-276 | compacting one column leaves the sibling read of another column valid |
| Store.ContiguousKept | server/models/card.js:269-276 | removing the card from a column whose other children hold 1..n leaves children holding 1..n |
| Entities.RankOf | server/models/card.js:128-135 | a change-set value is a rank exactly when it is a number, and the rank equals that number |
| Reorder.OptionsError | server/models/helpers.js:34-48 | the first failing synchronous options check, in the source's order; none exactly when the options are complete |
| Reorder.CanChangeParent | server/models/helpers.js:50-52 | true exactly when the option holds the boolean true; missing or non-boolean means false |
| Reorder.PartyError | server/models/helpers.js:54-62 | none exactly when parent and child are persisted instances of their models; the parent is checked first |
| Reorder.Reorder | server/models/helpers.js:33-149 | the call's result and the new table equal `ReorderEffect` of the old table |
| Reorder.ReorderThrows | server/models/helpers.js:34-48 | incomplete options throw the first failing check's message and nothing is written |
| Reorder.ReorderSettles | server/models/helpers.js:50-149 | with complete options the result is the guarded walk with the defaulted `canChangeParent` |
| Reorder.Settle | server/models/helpers.js:116-148 | the promise executor: the guard ladder, then the walk, as a function of the old table |
| Reorder.GuardsBeforeRead | server/models/helpers.js:117-129 | an invalid parent, an invalid child or a non-number position rejects with its message whatever the sibling read, and nothing is written |
| Reorder.ReorderArranges | server/models/helpers.js:86-145 | a successful call with p >= 1 leaves the parent's children on 1..n+1, the item at min(p, n+1) and the siblings in order |
| Reorder.ReorderScope | server/models/helpers.js:122-129 | only the parent's children and the item change; parents change only when `canChangeParent` holds |
| Columns.PositionsRefusal | server/models/column.js:47-50 | none exactly when board and column are valid; an invalid board is reported first |
| Columns.SaveColumnPosition | server/models/column.js:87-99 | writes only the column's position, never its BoardId; an invalid column is refused |
| Columns.SaveColumnPositions | server/models/column.js:15-78 | the guarded walk over the board's columns, with the parent never changed |
| Columns.Make | server/models/column.js:141-162 | the result and the new table equal `MakeEffect` |
| Columns.MoveTo | server/models/column.js:175-195 | the result and the new table equal `MoveEffect`: validate, clamp, reorder inside a transaction |
| Columns.MakeRefuses | server/models/column.js:143-150 | an invalid board rejects with 'Invalid board', a missing or blank title fails validation, and a refused make writes nothing |
| Columns.MakeAppends | server/models/column.js:151-155 | the new column goes to the board above every other column, at 1 on an empty board; other rows are kept; 1..n becomes 1..n+1 |
| Columns.MoveArranges | server/models/column.js:179-189 | a failed move changes nothing. A successful one arranges the board's columns on 1..n+1, with the column at min(max(k,1), n+1), and changes no BoardId |
| Columns.MoveKeepsOtherBoards | server/models/column.js:52-59 | columns of other boards are not changed |
| Columns.MoveExample | server/models/column.js:175-195 | the four columns with C moved to 2 end as A, C, B, D |
| Columns.MoveToFrontExample | server/models/column.js:175-195 | the four columns with C moved to 1 end as C, A, B, D |
| Columns.MovePastEndExample | server/models/column.js:175-195 | the four columns with C moved to 5, past the end, end as A, B, D, C |
| Tasks.PositionsRefusal | server/models/task.js:68-70 | none exactly when card and task are valid; an invalid card is reported first |
| Tasks.SaveTaskPosition | server/models/task.js:14-26 | writes only that task's position, never its CardId; an invalid task is refused |
| Tasks.SaveTaskPositions | server/models/task.js:36-99 | the guarded walk over the card's tasks, with the parent never changed |
| Tasks.Make | server/models/task.js:141-161 | the result and the new table equal `MakeEffect` |
| Tasks.MoveTo | server/models/task.js:172-191 | the result and the new table equal `MoveEffect`: validate, clamp, reorder inside a transaction |
| Tasks.MakeRefuses | server/models/task.js:143-149 | an invalid card rejects with 'Invalid card', a missing or blank title fails with 'Task title may not be empty', and nothing is written |
| Tasks.MakeAppends | server/models/task.js:150-155 | the new task goes to the card above every other task, at 1 on an empty card; 1..n becomes 1..n+1 |
| Tasks.MoveArranges | server/models/task.js:176-186 | a failed move changes nothing. A successful one arranges the card's tasks on 1..n+1, with the moved task at min(max(k,1), n+1), and changes no CardId |
| Tasks.MoveKeepsOtherCards | server/models/task.js:73-80 | tasks of other cards are not changed |
| Tasks.MoveExample | server/models/task.js:172-191 | of tasks 1..5, task 3 moved to 4 gives 1, 2, 4, 3, 5 |
| Tasks.MoveToFrontExample | server/models/task.js:172-191 | of tasks 1..5, task 3 moved to offset 0 is clamped to 1 and gives 3, 1, 2, 4, 5 |
| Tasks.MovePastEndExample | server/models/task.js:172-191 | of tasks 1..5, task 3 moved to 9 is appended: 1, 2, 4, 5, 3 |
| Cards.ColumnOf | server/models/card.js:251-254 | the card's current column, when found, is the column its row names |
| Cards.ApplyReplace | server/models/card.js:105-111 | `replace` operations keep the snapshot's members; a member no operation names is unchanged; every changed member holds a value one operation supplied |
| Cards.PatchedTyped | server/models/card.js:111 | well-typed operations give a well-typed patched snapshot |
| Cards.ColumnLookup | server/models/card.js:124-132 | a found column is a valid column whose id is the patched ColumnId |
| Cards.Patched | server/models/card.js:102-111 | the patched snapshot has the snapshot's members (id, title, description, dueDate, estimate, position, ColumnId, createdAt, updatedAt), each well typed |
| Cards.Rollback | server/models/card.js:102-141 | the transaction keeps the body's result; on failure fields and positions are those from before it |
| Cards.CardStore.Make | server/models/card.js:60-86 | the result and the new store equal `MakeEffect` |
| Cards.CardStore.Relocate | server/models/card.js:257-273 | the reorder part of `moveTo` equals `Relocated` of the old table |
| Cards.CardStore.MoveTo | server/models/card.js:241-280 | the result and the new table equal `MoveEffect`, with the caller's transaction or a new one |
| Cards.CardStore.Patch | server/models/card.js:99-141 | the result and the new store equal `PatchEffect` |
| Cards.CardStore.Transaction | server/models/card.js:102-141 | the transaction around the patch body: the body's effect rolled back on failure |
| Cards.CardStore.Commit | server/models/card.js:112-139 | the patch body: field copy, validation, save, then the move when position or ColumnId changed |
| Cards.CardOrderValid | server/models/card.js:257-262 | the card's reorder options are complete and allow the parent to change |
| Cards.MoveUnfolds | server/models/card.js:245-248 | past the checks, the move is the relocation with the offset clamped up to 1 |
| Cards.RelocatedWithin | server/models/card.js:265-267 | a move within one column is a single reorder of that column |
| Cards.RelocatedAcross | server/models/card.js:269-276 | a move across columns compacts the source column with 0 and only then inserts into the target |
| Cards.MoveRefuses | server/models/card.js:245-254 | an invalid column, a non-number offset, a missing current column and a column of another board each reject with their message before any write |
| Cards.MoveRollsBack | server/models/card.js:250-276 | without a caller's transaction a failed move leaves every position unchanged |
| Cards.MoveWithinColumn | server/models/card.js:265-267 | within a column the card ends at min(max(k,1), n+1) with the column arranged on 1..n+1 |
| Cards.MoveAcrossColumns | server/models/card.js:269-276 | across columns the source's cards hold 1..n-1 in order, and the card sits in the target at min(max(k,1), n+1) with its ColumnId set; the target holds 1..n+1 |
| Cards.MoveKeepsOtherColumns | server/models/card.js:257-273 | cards of columns other than source and target are not changed |
| Cards.RelocatedKeepsOtherColumns | server/models/card.js:257-273 | the relocation changes only cards of the source and target columns |
| Cards.MoveWithinColumnToSecond | server/models/card.js:265-267 | AA, AB, AC, AD with AC moved to 2 gives AA, AC, AB, AD |
| Cards.MoveWithinColumnToFirst | server/models/card.js:265-267 | AC moved to 1 gives AC, AA, AB, AD |
| Cards.MoveWithinColumnPastEnd | server/models/card.js:265-267 | AC moved to 5 gives AA, AB, AD, AC |
| Cards.WithinColumnRows | server/models/card.js:257-267 | for every rank, the four cards of one column hold 1..4 with the moved card at min(p, 4) |
| Cards.MoveAsWrittenNeverMoves | server/models/card.js:243-250 | as written, no move resolves or writes: the column and offset refusals are the modelled ones, and every call past them is rejected because `helpers.wrapTransaction` does not exist |
| Cards.MoveAsWrittenExample | server/models/card.js:243-250 | AC moved to 2 is rejected and leaves the column as it was; with the documented transaction the same move resolves to AA, AC, AB, AD |
| Cards.PatchRefusesInapplicable | server/models/card.js:102-108 | change-sets that do not apply are rejected with 'Patches can not be applied' and nothing is written; a replace of any member of the record, the createdAt and updatedAt stamps included, applies |
| Cards.TimestampPatchResolves | server/models/card.js:102-135 | a change-set that replaces only createdAt or updatedAt applies; for a valid card whose save succeeds it resolves, does not move the card, keeps createdAt and sets updatedAt to the save time |
| Cards.PatchAtomic | server/models/card.js:102-141 | a failed patch leaves every field and every position unchanged |
| Cards.PatchCopiesFields | server/models/card.js:111-135 | a patch copies title, description, dueDate and estimate, keeps createdAt, stamps updatedAt with the save time, and moves the card only when position or ColumnId changed |
| Cards.PlainPatchDoesNotMove | server/models/card.js:124-132 | a patch that leaves position and ColumnId alone writes no position |
| Cards.MakeAppends | server/models/card.js:60-86 | an invalid column or blank title is refused and leaves the store as it was. Otherwise the card goes to the column above every other card, at 1 in an empty column, with the given title and description and both timestamps set to the save time |
| LegacyCards.PositionsRefusal | models/card.js:50-52 | none exactly when column and card are valid; an invalid column is reported first |
| LegacyCards.SaveCardPosition | models/card.js:95-109 | a single write sets the card's position and its ColumnId to the column |
| LegacyCards.SaveCardPositions | models/card.js:17-85 | the older walk equals `PositionsEffect`, and every write also sets ColumnId |
| LegacyCards.MoveTo | models/card.js:279-316 | the result and the new table equal `MoveEffect` |
| LegacyCards.Make | models/card.js:160-182 | the older `make` has the same effect as the server's: append at max+1 |
| LegacyCards.PositionsMatchReorder | models/card.js:17-85 | the older walk is `reorder` with the card options; both refuse invalid parties without writing |
| LegacyCards.MoveMatchesServer | models/card.js:279-316 | the older `moveTo` equals the server's `moveTo` without a caller's transaction |
| LegacyCards.MoveRollsBack | models/card.js:294-310 | a failed older move leaves every position unchanged |
| LegacyCards.MoveAcrossColumns | models/card.js:302-310 | across columns the source is compacted to 1..n-1 in order and the card is inserted into the target at min(max(k,1), n+1) |
| LegacyCards.MoveWithinColumn | models/card.js:294-300 | within a column the card ends at min(max(k,1), n+1) and the column holds 1..n+1 |
| UserQuery.LeadingDigits | server/routes/users.js:35 | the longest prefix of digits in the radix, which `parseInt` reads |
| UserQuery.Signed | server/routes/users.js:35 | an optional sign is removed, and '-' negates |
| UserQuery.Radix | server/routes/users.js:35 | a '0x' or '0X' prefix selects radix 16, and anything else radix 10 |
| UserQuery.ParseInt | server/routes/users.js:35 | NaN exactly when no digit follows the whitespace, sign and prefix; a finite result is within the double range |
| UserQuery.Decimal | server/routes/users.js:35 | the decimal spelling of a natural number, without leading zeros |
| UserQuery.DecimalValue | server/routes/users.js:35 | reading the decimal spelling gives the number back |
| UserQuery.DecimalDigits | server/routes/users.js:35 | an all-digit string is its own leading-digit prefix |
| UserQuery.ParseDecimal | server/routes/users.js:35 | `parseInt` reads back n, -n and +n from their decimal spellings |
| UserQuery.ClampLimit | server/routes/users.js:38-39 | the value clamped into [1, 50] |
| UserQuery.ToLimit | server/routes/users.js:31-41 | always in [1, 50]; a missing or unparseable limit gives 50; otherwise the leading integer clamped |
| UserQuery.ToOffset | server/routes/users.js:53-61 | never negative; a missing or non-string offset gives 0; otherwise the parsed integer, or 0 when it is negative or unparseable |
| UserQuery.ToUpper | server/routes/users.js:47 | the string upper-cased character by character, for every character whose upper case is an ASCII letter |
| UserQuery.ToOrder | server/routes/users.js:43-51 | ['name', ASC or DESC]; DESC exactly when the order is a string spelling DESC in any case |
| UserQuery.ToWhereClause | server/routes/users.js:14-29 | none exactly when the name is missing, not a string or blank; otherwise '%' + the trimmed name cut to 50 characters + '%' |
| UserQuery.LimitOfDecimal | server/routes/users.js:31-41 | a limit spelled as a decimal integer gives that integer clamped |
| UserQuery.OffsetOfDecimal | server/routes/users.js:53-61 | an offset spelled as a decimal integer gives it, or 0 when negative |
| UserQuery.ParseWord | server/routes/users.js:35 | a word without leading digits parses to NaN |
| UserQuery.LimitExamples | server/routes/users.js:31-41 | '5.9' gives 5, '-1' gives 1, '52' gives 50, 'fnord' gives 50 |
| UserQuery.OffsetExamples | server/routes/users.js:53-61 | '1' gives 1, '-1' gives 0, 'NaN' gives 0 |
| UserQuery.OrderExamples | server/routes/users.js:43-51 | 'aSc' and 'fnord' give ASC, 'dEsC' gives DESC, a non-string gives ASC |
| UserQuery.WhereClauseTrimmed | server/routes/users.js:17-21 | the pattern is at most 52 characters, and its search text starts with no whitespace (nor ends with any when uncut) |
| BoardAccess.GeneralCheck | server/routes/middleware/board-access.js:14-28 | passes exactly when a user is logged in and the board is a persisted Board; no user gives 401, a bad board gives 400 |
| BoardAccess.CanRead | server/routes/middleware/board-access.js:38-57 | as written: always replies, and grants only a logged-in participant of a valid board |
| BoardAccess.CanReadIntended | server/routes/middleware/board-access.js:38-57 | as intended: one reply, granting participants and, on a public board, everyone logged in |
| BoardAccess.CanExecuteUserAction | server/routes/middleware/board-access.js:66-77 | one reply, granting only a logged-in participant of a valid board |
| BoardAccess.CanExecuteAdminAction | server/routes/middleware/board-access.js:86-106 | as written: always replies, and replies once unless a non-participant passed the general check |
| BoardAccess.CanExecuteAdminActionIntended | server/routes/middleware/board-access.js:86-106 | as intended: one reply, granting only a logged-in participant who is an administrator |
| BoardAccess.GuardsCheckUserThenBoard | server/routes/middleware/board-access.js:14-28 | every guard answers 401 without a user and 400 on a bad board, before any lookup |
| BoardAccess.ShortcutNever | server/routes/middleware/board-access.js:42-45 | the public-board shortcut never fires, so `canRead` is the participation check alone |
| BoardAccess.PublicBoardRefused | server/routes/middleware/board-access.js:42-45 | a non-participant is refused a public board as written and let through as intended |
| BoardAccess.CanReadGrantsParticipants | server/routes/middleware/board-access.js:38-57 | `canRead` replies once, grants exactly logged-in participants of valid boards, and refuses non-participants with 403 |
| BoardAccess.CanReadIntendedGrants | server/routes/middleware/board-access.js:38-57 | the intended check grants exactly participants or public boards, and on a public board does not depend on the lookup |
| BoardAccess.UserActionGrantsParticipants | server/routes/middleware/board-access.js:66-77 | grants exactly logged-in participants of valid boards; non-participants get 403 and a failed lookup the error |
| BoardAccess.AdminActionRepliesTwice | server/routes/middleware/board-access.js:90-103 | a non-participant gets 403 and then the chain proceeds: two replies |
| BoardAccess.AdminActionAgreesOnParticipants | server/routes/middleware/board-access.js:86-106 | apart from that case the check as written equals the intended one |
| BoardAccess.AdminActionGrantsAdmins | server/routes/middleware/board-access.js:86-106 | the intended check grants exactly logged-in participant administrators; other participants get 403 'Only an administrator…' |
| BoardAccess.GuardsNested | server/routes/middleware/board-access.js:38-106 | admin access implies user access, which implies read access |
| Labels.IsLabel | models/label.js:34-37 | only persisted Label instances pass |
| Labels.GroupsAreDigits | models/label.js:21 | k repetitions of a three-digit group are exactly 3k hex digits |
| Labels.HexCodeRegexForm | models/label.js:21 | the expression accepts exactly '#' followed by 3 or 6 hex digits |
| Labels.ColorMessages | models/label.js:15-26 | no message exactly for a hex-colour code; a blank colour fails both validators; any other bad colour fails the format only |
| Labels.LabelMessages | models/label.js:6-26 | no message exactly when the title has at most 255 characters and the colour is a hex code; the title is reported first |
| Labels.Make | models/label.js:45-61 | an invalid board is refused; a label is created exactly when the title fits and the colour is a hex code, and it carries the title, the colour and the board's id |
| Labels.MakeWithoutColor | models/label.js:15-26 | a missing colour fails with both colour messages |
| Labels.MakeNamedColor | models/label.js:15-26 | 'red' fails with the format message alone |
| Labels.HexCodeExamples | models/label.js:21 | '#fff' and '#A0b1C2' pass; '#ffff', 'fff', '#ggg' and '#12345' do not |
| Labels.MakeEmptyTitle | models/label.js:45-61 | a missing title is allowed and stored as the empty string |
| Users.IsUser | models/user.js:27-30 | only persisted User instances pass |
| Users.NameMessages | models/user.js:9-17 | no message exactly for a non-empty ASCII alphanumeric name; a blank name fails both validators; any other bad name fails the alphanumeric rule only |
| Users.PasswordError | models/user.js:94-96 | no error exactly for 8..50 characters that are not all whitespace; otherwise empty, length or blank, in that order |
| Users.User.SetPassword | models/user.js:89-104 | a broken rule refuses with its message and keeps the password. A failed hash refuses too. Otherwise the stored password becomes the hash |
| Users.MakeEffect | models/user.js:38-58 | a user is created exactly when the name and password pass, the hash succeeds and the name is free; it holds the name and the hash |
| Users.Make | models/user.js:38-58 | building, validating, setting the password and saving has the effect `MakeEffect` states |
| Users.NameBeforePassword | models/user.js:38-58 | a bad name is reported whatever the password; a missing name gives both name messages |
| Users.NameWithSymbols | models/user.js:9-17 | ' _-abcdefg_' is refused as not alphanumeric only |
| Users.PasswordRules | models/user.js:94-96 | a missing password is empty, '123' too short, and ten whitespace characters blank |
| Users.NameUnique | models/user.js:38-58 | once a name is stored, a second user with it is refused as taken |
| BoardsApi.Initialized | api/boards.js:47 | a list stays as it is, and a non-list becomes the empty list |
| BoardsApi.AddEffect | api/boards.js:39-66 | the owner is refused, a participant already listed is refused with the list unchanged, and anyone else is appended; saved exactly in that last case when saving succeeds |
| BoardsApi.Board.constructor | api/boards.js:14-29 | a new board has no participants and no owner |
| BoardsApi.Board.AddParticipant | api/boards.js:39-66 | the result and the new list equal `AddEffect` of the old list |
| BoardsApi.Create | api/boards.js:14-29 | a fresh board owned by the user; its owner key is set when the save succeeds |
| BoardsApi.AddKeepsListing | api/boards.js:39-66 | adding keeps every participant listed once and the owner out; a refused add keeps the list; no participant is lost |
| BoardsApi.OwnerNeverParticipates | api/boards.js:50-52 | the owner is always refused |
| BoardsApi.AddTwiceRefused | api/boards.js:55-57 | adding the same user again is refused, whether or not the first save succeeded |
| BoardsApi.ThreeAdds | api/boards.js:39-66 | three different users give a list of three in the order added |
| BoardsApi.CreateThenAdd | api/boards.js:14-66 | on a new board the first other user is added; adding the owner afterwards is refused with the owner message, and the participants stay just that user |
| Validation.TextMessages | server/models/card.js:15-43 | `notEmpty` then `len`: no message exactly for a non-blank text of allowed length |
| Validation.LengthMessages | models/label.js:6-13 | `len` alone: no message exactly for an allowed length |
| Validation.MinMessages | server/models/column.js:117-121 | `min` on a nullable attribute (the column's `wipLimit`): a missing value passes |
| JsText.Trim | server/routes/users.js:17 | `String.prototype.trim`: the text without leading and trailing whitespace |

## Left out

- The sibling read, the `max(position)` query and saving are database operations. Their results enter as parameters, and storage failures enter as the set of rows whose write fails. A failing `findAll` or a result that is not an array (server/models/helpers.js:131-134) is not modelled.
- Sibling ties: the siblings are sorted by position only, so the order of equal positions is not defined. The sorted sibling sequence is an input constrained to be sorted.
- `savePosition` runs Sequelize validation again on every write; a failure there is modelled as a storage failure of that row.
- Columns.Make, Tasks.Make, Cards.CardStore.Make, LegacyCards.Make: an insert failure after validation (a database error) is not modelled; the database assigns the new id, which is a parameter.
- LegacyCards.Make: the older `make` runs `save` and then `setColumn` with no transaction (models/card.js:168-180), so a failing `setColumn` leaves a saved card with no ColumnId. The model writes the row and its fields in one step.
- Cards.CardStore.Make, Cards.CardStore.Patch, LegacyCards.Make: the clock Sequelize reads for the `createdAt` and `updatedAt` stamps is a parameter (`now`). The patch stores `now` as `updatedAt` on every successful save, including one where no field changed, which Sequelize may skip.
- Tasks.Make: `setCard` at server/models/task.js:157 is not awaited; the model treats it as completing with the save.
- Ranks are integers. Fractional positions, NaN and the infinities are not modelled, and a change-set with a fractional position is excluded by a precondition of the patch.
- Cards.CardStore.Patch: values of the wrong type in a change-set (a number as title) are excluded by `WellTyped`; fast-json-patch operations other than `replace` and JSON-pointer parsing are not modelled (a path is a member name).
- Cards.ColumnLookup: the column lookup by the patched ColumnId reads a given set of columns; a lookup failure is modelled as a missing column.
- Cards.Wrapped, Cards.CardStore.MoveTo, Cards.CardStore.Patch: server/models/helpers.js exports only `isModelOfType` and `reorder` (lines 151-152), and no file defines `wrapTransaction`. As written, the call at server/models/card.js:250 raises a TypeError inside the executor opened at line 243. So every `moveTo` that passes the column and offset checks rejects without writing, and every patch that moves a card is rejected and rolled back. `Cards.MoveAsWritten` captures this for `moveTo`. The rest of the model gives the documented behaviour instead (line 238): the writes join the caller's transaction, or else run in a new one. This is recorded under "## Findings".
- Columns.MoveTo, Tasks.MoveTo, Cards.ColumnOf: a failing association read (`getBoard()` at server/models/column.js:182, `getCard()` at server/models/task.js:179, `getColumn()` at server/models/card.js:251) is not modelled; the parent is given, and a missing one is refused as invalid.
- `dueDate`'s `isDate` validator is not modelled; the due date is carried as an opaque value.
- After a rollback the Sequelize instances in memory keep their changed fields. The model restores the stored rows and fields only.
- The `fk` option's name is not modelled; a child has one parent field.
- Lengths are counted in code points, not in JavaScript's UTF-16 code units.
- UserQuery.ToUpper: only characters whose upper case is an ASCII letter are upper-cased, which is all that comparing with 'ASC' and 'DESC' needs; other characters are kept.
- Query values are strings, arrays of values and objects. `toLimit` reads them as `String` prints them; `toOffset` reads only strings. Numbers and booleans never arrive in a parsed query string and are not modelled.
- Password hashing (bcrypt) is a parameter of Users.User.SetPassword and Users.Make; its salt rounds and output are not modelled.
- Users.Make: the unique-name constraint is modelled as exact membership in the set of stored names; the database's collation is not modelled. The "Could not validate user-data" path, where `validate` itself throws, is not modelled.
- Non-string values for label and user fields are not modelled: those fields are strings or missing.
- BoardsApi.Create, BoardsApi.Board.AddParticipant: api/boards.js:24 and :63 catch a failed save with Bluebird's `.error()`, which catches only operational errors. Any other save failure leaves the returned promise unsettled, but the model renders every failed save as the rejection with the route's message.
- BoardsApi.Create: that saving the owner relation stores the owner's key is assumed rather than modelled; the thinky documents, `asBoard` and `asUser` lookups are not modelled (the user is given by its id).
- The board-access middleware's lookups (`hasUser`, `isAdmin`) are parameters; the result that `res.json` returns is a parameter of BoardAccess.CanExecuteAdminAction.
- LegacyCards.PositionsRefusal, LegacyCards.SaveCardPosition, LegacyCards.SaveCardPositions, LegacyCards.Make, LegacyCards.MoveTo: the older models/column.js defines no `isColumn`. As written, the calls to `sequelize.models.Column.isColumn` at models/card.js:50, 97, 162, 283 and 290 call an undefined value. Each of these calls sits inside a `new Promise` executor, so the TypeError rejects that operation's promise: the older `saveCardPositions`, `saveCardPosition`, `make` and `moveTo` reject on every input. The model does not capture this; it gives these operations the server's column check (`Columns.IsColumn`), as they were evidently meant to have.
- UserQuery.ToOffset, UserQuery.ToLimit: the parsed integer is exact. `parseInt` yields a double, so digit strings above 2^53 are rounded there and not in the model; for the limit this never matters, because it is clamped to 50.
- Sockets, routing, logging in, and the remaining HTTP handlers are not modelled.

## Findings

| source | as written | input that shows it | evidently intended | confidence | as-written member | corrected member |
|---|---|---|---|---|---|---|
| server/routes/middleware/board-access.js:42-45 | the public-board test `req.board.private && req.board.private === false` needs a value that is truthy and also `false`, so it never holds | a logged-in non-participant reading a board whose `private` is `false` gets 403 | a public board is readable by every logged-in user, as server/routes/sockets.js:17-19 checks it | not executed | BoardAccess.PublicBoardRefused | BoardAccess.CanReadIntendedGrants |
| server/routes/middleware/board-access.js:90-103 | for a non-participant the first `then` sends 403 and returns what `res.json` returns; the second `then` takes that value as `isAdmin`, and so calls `next()` or sends a second 403 | a logged-in non-participant on a valid board: 403 'You are not allowed to edit content…', then the next handler runs | stop after the first 403 | not executed | BoardAccess.AdminActionRepliesTwice | BoardAccess.AdminActionGrantsAdmins |
| server/models/card.js:243-250 | `moveTo` calls `helpers.wrapTransaction`, which server/models/helpers.js does not export (lines 151-152), so past the column and offset checks the TypeError rejects the move before any write; a patch that moves the card is rolled back | card AC of the column AA, AB, AC, AD moved to 2: rejected, and the column stays AA, AB, AC, AD | the move joins the caller's transaction or opens its own, as the doc comment at line 238 says, giving AA, AC, AB, AD | not executed | Cards.MoveAsWrittenExample | Cards.MoveWithinColumn |

