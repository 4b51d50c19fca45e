/** The string operations of the JavaScript runtime and of the validators the models use:
    the whitespace class `\s`, `String.prototype.trim`, and Sequelize's `notEmpty`. */
module JsText {

  /** ECMAScript WhiteSpace and LineTerminator code points: the class `\s` matches and
      `trim` removes. */
  predicate IsWhitespace(c: char)
  {
    || c == '\t' || c == '\n' || c == '\U{000B}' || c == '\U{000C}' || c == '\r' || c == ' '
    || c == '\U{00A0}' || c == '\U{1680}' || ('\U{2000}' <= c <= '\U{200A}')
    || c == '\U{2028}' || c == '\U{2029}' || c == '\U{202F}' || c == '\U{205F}'
    || c == '\U{3000}' || c == '\U{FEFF}'
  }

  /** Every character is whitespace (the empty string included). */
  predicate Blank(s: string)
  {
    forall i :: 0 <= i < |s| ==> IsWhitespace(s[i])
  }

  /** Sequelize's `notEmpty` validator: the value does not match `^[\s\t\r\n]*$`. */
  predicate NotEmpty(s: string)
  {
    !Blank(s)
  }

  /** How many whitespace characters open the string. */
  function Leading(s: string): (k: nat)
    ensures k <= |s|
    ensures forall j :: 0 <= j < k ==> IsWhitespace(s[j])
    ensures k < |s| ==> !IsWhitespace(s[k])
  {
    if s != [] && IsWhitespace(s[0]) then 1 + Leading(s[1..]) else 0
  }

  /** How many whitespace characters close the string. */
  function Trailing(s: string): (k: nat)
    ensures k <= |s|
    ensures forall j :: |s| - k <= j < |s| ==> IsWhitespace(s[j])
    ensures k < |s| ==> !IsWhitespace(s[|s| - 1 - k])
  {
    if s != [] && IsWhitespace(s[|s| - 1]) then 1 + Trailing(s[..|s| - 1]) else 0
  }

  /** `trimStart`: the suffix after the leading whitespace. */
  function TrimStart(s: string): (r: string)
    ensures |r| <= |s| && r == s[|s| - |r|..] && Blank(s[..|s| - |r|])
    ensures r != [] ==> !IsWhitespace(r[0])
  {
    var k := Leading(s);
    assert forall j :: 0 <= j < k ==> s[..k][j] == s[j];
    s[k..]
  }

  /** `String.prototype.trim`: the input is the result with whitespace on both sides, and
      the result neither starts nor ends with whitespace. */
  function Trim(s: string): (t: string)
    ensures Leading(s) + |t| <= |s| && t == s[Leading(s)..Leading(s) + |t|]
    ensures Blank(s[..Leading(s)]) && Blank(s[Leading(s) + |t|..])
    ensures t != [] ==> !IsWhitespace(t[0]) && !IsWhitespace(t[|t| - 1])
    ensures t == [] <==> Blank(s)
  {
    var i := Leading(s);
    var u := s[i..];
    var t := u[..|u| - Trailing(u)];
    TrimFacts(s, i, u, t);
    t
  }

  /** The whitespace `Trim` cuts off before and after its result is blank, and a blank
      text trims to nothing. */
  lemma TrimFacts(s: string, i: nat, u: string, t: string)
    requires i == Leading(s) && u == s[i..] && t == u[..|u| - Trailing(u)]
    ensures Blank(s[..i]) && Blank(s[i + |t|..])
    ensures Blank(s) ==> t == []
  {
    forall j | 0 <= j < i
      ensures IsWhitespace(s[..i][j])
    {
      assert s[..i][j] == s[j];
    }
    var e := i + |t|;
    forall j | 0 <= j < |s| - e
      ensures IsWhitespace(s[e..][j])
    {
      assert s[e..][j] == u[|t| + j];
    }
  }
}
