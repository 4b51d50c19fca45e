/** The Sequelize attribute validators the models declare, as the lists of messages a
    failing `validate()` reports (every failing validator of every attribute, in
    declaration order). */
module Validation {
  import opened Entities
  import opened JsText

  /** The message Sequelize reports for a failing `min` validator declared without one. */
  const MinFailed := "Validation min failed"

  /** `notEmpty` (not only whitespace) then `len: [min, max]` on one text attribute. */
  function TextMessages(s: string, emptyMessage: string, lengthMessage: string, min: nat, max: nat): (m: seq<string>)
    ensures m == [] <==> NotEmpty(s) && min <= |s| <= max
    ensures Blank(s) ==> |m| >= 1 && m[0] == emptyMessage
    ensures !(min <= |s| <= max) ==> |m| >= 1 && m[|m| - 1] == lengthMessage
    ensures |m| <= 2 && (|m| == 2 ==> Blank(s) && !(min <= |s| <= max))
  {
    (if Blank(s) then [emptyMessage] else []) + (if min <= |s| <= max then [] else [lengthMessage])
  }

  /** `len: [min, max]` alone. */
  function LengthMessages(s: string, lengthMessage: string, min: nat, max: nat): (m: seq<string>)
    ensures m == [] <==> min <= |s| <= max
    ensures m != [] ==> m == [lengthMessage]
  {
    if min <= |s| <= max then [] else [lengthMessage]
  }

  /** `min: bound` on an attribute that allows null: a missing value is not checked. */
  function MinMessages(v: Option<real>, bound: real): (m: seq<string>)
    ensures m == [] <==> v.None? || v.value >= bound
    ensures m != [] ==> m == [MinFailed]
  {
    if v.Some? && v.value < bound then [MinFailed] else []
  }
}
