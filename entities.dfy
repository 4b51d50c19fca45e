/** Values the models receive from their callers: model instances (or whatever was passed
    in their place), JavaScript scalars in change-sets, ranks, and the optional-value wrapper. */
module Entities {

  type Id = nat

  datatype Option<+T> = None | Some(value: T)

  /** The ORM model types whose instances are passed around. */
  datatype Model = BoardModel | ColumnModel | CardModel | TaskModel | UserModel | LabelModel

  /** What a caller passes where a model instance is expected: null or undefined (`Nothing`), a value
      that is not an object (a string, a number), an object without a model, or an instance
      of some model with its primary key and its `isNewRecord` flag. */
  datatype Obj =
    | Nothing
    | Primitive
    | PlainObject
    | Instance(model: Model, id: Id, isNewRecord: bool)

  /** `isModelOfType`: the value is an object whose `Model` is the required one. */
  predicate IsModelOfType(obj: Obj, required: Model)
  {
    obj.Instance? && obj.model == required
  }

  /** The `isBoard`/`isColumn`/`isCard`/`isTask`/`isUser`/`isLabel` checks and the
      `validateParent`/`validateChild` checks of the reorder helper: an instance of the
      required model that has been persisted. */
  predicate IsPersisted(obj: Obj, required: Model)
  {
    IsModelOfType(obj, required) && !obj.isNewRecord
  }

  /** The primary key of an instance (0 for anything else; only read once a check has
      established that the value is an instance). */
  function IdOf(obj: Obj): Id
  {
    if obj.Instance? then obj.id else 0
  }

  /** A JavaScript value as it arrives in a change-set or in creation data. Numbers are
      reals (NaN and the infinities are not modelled); `Other` stands for arrays and
      objects. */
  datatype Value = Null | Bool(b: bool) | Num(r: real) | Text(s: string) | Other

  /** JavaScript falsiness, which the `x || ''` defaulting tests. */
  predicate Falsy(v: Value)
  {
    v == Null || v == Bool(false) || v == Num(0.0) || v == Text("")
  }

  /** `data.field || ''` on a text field: a missing field (or the empty string) stands
      for the empty string. */
  function OrEmpty(s: Option<string>): string
  {
    if s.Some? then s.value else ""
  }

  /** A requested rank as the position checks see it: an integer, or anything that
      `_.isNumber` rejects. Fractional ranks are not modelled. */
  datatype Rank = Rank(n: int) | NotNumber

  predicate IsInteger(r: real)
  {
    r.Floor as real == r
  }

  /** The rank a change-set value stands for; only integer numbers are ranks. */
  function RankOf(v: Value): (k: Rank)
    requires v.Num? ==> IsInteger(v.r)
    ensures k.Rank? <==> v.Num?
    ensures k.Rank? ==> k.n as real == v.r
  {
    if v.Num? then Rank(v.r.Floor) else NotNumber
  }

  function Max(a: int, b: int): int
  {
    if a < b then b else a
  }

  function Min(a: int, b: int): int
  {
    if a < b then a else b
  }
}
