/** The Label model: its attribute validators (a title of at most 255 characters and a
    colour written as a hex-colour code) and `make`, which binds a new label to a board. */
module Labels {
  import opened Entities
  import opened JsText
  import opened Validation

  const InvalidBoard := "Invalid board"
  const TitleLength := "Label title is either too long or too short (0..255 characters)"
  const ColorEmpty := "Color must be set"
  const ColorFormat := "Color must be a valid hex-color code in either short or long form"

  /** The creation data `make` receives; None stands for a missing or falsy field. */
  datatype LabelData = LabelData(title: Option<string>, color: Option<string>)

  /** A created label, bound to its board. */
  datatype Label = Label(title: string, color: string, boardId: Id)

  /** How `make` settles: the created label, a rejection with one message, or the
      validation error with every failing validator's message. */
  datatype Made = Created(value: Label) | Rejected(message: string) | Invalid(messages: seq<string>)

  /** `isLabel`: false for anything that is not a Label instance and for unsaved labels. */
  function IsLabel(obj: Obj): (b: bool)
    ensures b ==> obj.Instance? && obj.model == LabelModel
    ensures obj.Instance? && obj.isNewRecord ==> !b
  {
    IsPersisted(obj, LabelModel)
  }

  /** The character class `[0-9a-f]` under the `i` flag. */
  predicate HexDigit(c: char)
  {
    ('0' <= c <= '9') || ('a' <= c <= 'f') || ('A' <= c <= 'F')
  }

  /** `t` is `k` repetitions of the group `(?:[0-9a-f]{3})`, and nothing else. */
  predicate Groups(t: string, k: nat)
    decreases k
  {
    if k == 0 then t == []
    else |t| >= 3 && HexDigit(t[0]) && HexDigit(t[1]) && HexDigit(t[2]) && Groups(t[3..], k - 1)
  }

  /** The expression `/^#(?:[0-9a-f]{3}){1,2}$/i` matches the whole string. */
  predicate HexCodeRegex(s: string)
  {
    s != [] && s[0] == '#' && (Groups(s[1..], 1) || Groups(s[1..], 2))
  }

  /** The short or long form of a hex-colour code: '#' and then 3 or 6 hex digits. */
  predicate HexCode(s: string)
  {
    (|s| == 4 || |s| == 7) && s[0] == '#' && forall i :: 1 <= i < |s| ==> HexDigit(s[i])
  }

  /** `k` repetitions of a group are exactly 3k hex digits. */
  lemma {:induction false} GroupsAreDigits(t: string, k: nat)
    ensures Groups(t, k) <==> |t| == 3 * k && forall i :: 0 <= i < |t| ==> HexDigit(t[i])
    decreases k
  {
    if k > 0 && |t| >= 3 {
      GroupsAreDigits(t[3..], k - 1);
      if |t| == 3 * k && forall i :: 0 <= i < |t| ==> HexDigit(t[i]) {
        assert forall i :: 0 <= i < |t[3..]| ==> t[3..][i] == t[i + 3];
      }
      if Groups(t, k) {
        forall i | 0 <= i < |t|
          ensures HexDigit(t[i])
        {
          if i >= 3 {
            assert t[3..][i - 3] == t[i];
          }
        }
      }
    }
  }

  /** The validator's expression accepts exactly the short and long hex-colour forms. */
  lemma HexCodeRegexForm(s: string)
    ensures HexCodeRegex(s) <==> HexCode(s)
  {
    if s != [] && s[0] == '#' {
      GroupsAreDigits(s[1..], 1);
      GroupsAreDigits(s[1..], 2);
      assert forall i :: 1 <= i < |s| ==> s[1..][i - 1] == s[i];
    }
  }

  /** The messages of the colour's validators: `notEmpty`, then `isHexCode`. */
  function ColorMessages(color: string): (m: seq<string>)
    ensures m == [] <==> HexCode(color)
    ensures Blank(color) ==> m == [ColorEmpty, ColorFormat]
    ensures !Blank(color) && !HexCode(color) ==> m == [ColorFormat]
  {
    HexCodeRegexForm(color);
    assert Blank(color) && color != [] ==> IsWhitespace(color[0]);
    (if Blank(color) then [ColorEmpty] else []) + (if HexCodeRegex(color) then [] else [ColorFormat])
  }

  /** The messages of `Label.create`'s validation: the title's `len: [0, 255]`, then the
      colour's validators. */
  function LabelMessages(title: string, color: string): (m: seq<string>)
    ensures m == [] <==> |title| <= 255 && HexCode(color)
    ensures |title| > 255 ==> m != [] && m[0] == TitleLength
    ensures |title| <= 255 ==> m == ColorMessages(color)
  {
    LengthMessages(title, TitleLength, 0, 255) + ColorMessages(color)
  }

  /** `Label.make(board, labelData)`: the board check, the defaulting of the title and
      the colour to '', validation, and the binding to the board. */
  function Make(board: Obj, data: LabelData): (m: Made)
    ensures !IsPersisted(board, BoardModel) ==> m == Rejected(InvalidBoard)
    ensures m.Created? <==>
      && IsPersisted(board, BoardModel)
      && |OrEmpty(data.title)| <= 255
      && data.color.Some? && HexCode(data.color.value)
    ensures m.Created? ==> m.value == Label(OrEmpty(data.title), data.color.value, board.id)
  {
    var title := OrEmpty(data.title);
    var color := OrEmpty(data.color);
    if !IsPersisted(board, BoardModel) then Rejected(InvalidBoard)
    else if LabelMessages(title, color) != [] then Invalid(LabelMessages(title, color))
    else Created(Label(title, color, board.id))
  }

  /** A missing colour fails `notEmpty` first (and, being empty, the hex-code test). */
  lemma MakeWithoutColor(board: Obj, title: Option<string>)
    requires IsPersisted(board, BoardModel)
    requires |OrEmpty(title)| <= 255
    ensures Make(board, LabelData(title, None)) == Invalid([ColorEmpty, ColorFormat])
  {
    assert Blank("");
  }

  /** A colour name such as 'red' is refused with the format message alone. */
  lemma MakeNamedColor(board: Obj)
    requires IsPersisted(board, BoardModel)
    ensures Make(board, LabelData(None, Some("red"))) == Invalid([ColorFormat])
  {
    assert !IsWhitespace("red"[0]);
  }

  /** The short and long forms are accepted in either case; other lengths, a missing '#'
      and letters past 'f' are not. */
  lemma HexCodeExamples()
    ensures HexCode("#fff") && HexCode("#A0b1C2")
    ensures !HexCode("#ffff") && !HexCode("fff") && !HexCode("#ggg") && !HexCode("#12345")
  {
    assert !HexDigit("#ggg"[1]);
  }

  /** An empty or missing title is allowed; the title is kept as given. */
  lemma MakeEmptyTitle(board: Obj, color: string)
    requires IsPersisted(board, BoardModel) && HexCode(color)
    ensures Make(board, LabelData(None, Some(color))) == Created(Label("", color, board.id))
  {
  }
}
