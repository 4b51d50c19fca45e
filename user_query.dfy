/** The normalisers of the user-list query (`GET /users/`): the name filter, the limit,
    the order and the offset, each a function of the parsed query string. */
module UserQuery {
  import opened Entities
  import opened JsText

  /** `queryOptions`. */
  const MaxNameLength := 50
  const MinLimit := 1
  const MaxLimit := 50

  /** A parsed query-string value: a string, a repeated key (an array), or a nested object. */
  datatype QueryValue = QText(s: string) | QList(items: seq<QueryValue>) | QObject

  type Query = map<string, QueryValue>

  /** `String(v)`: arrays join their items with ',', objects print as '[object Object]'. */
  function ToJsString(v: QueryValue): string
  {
    match v
    case QText(s) => s
    case QList(items) => Joined(items)
    case QObject => "[object Object]"
  }

  function Joined(items: seq<QueryValue>): string
    decreases items
  {
    if items == [] then ""
    else if |items| == 1 then ToJsString(items[0])
    else ToJsString(items[0]) + "," + Joined(items[1..])
  }

  // ---------------------------------------------------------------------------------
  // parseInt
  // ---------------------------------------------------------------------------------

  /** The result of `parseInt`: NaN, an integer, or an integer too large for a double,
      which rounds to an infinity. */
  datatype Parsed = NaN | Finite(n: int) | Infinite

  /** The least magnitude that rounds to infinity as an IEEE 754 double: 2^1024 - 2^970. */
  const Overflow: int := 179769313486231580793728971405303415079934132710037826936173778980444968292764750946649017977587207096330286416692887910946555547851940402630657488671505820681908902000708383676273854845817711531764475730270069855571366959622842914819860834936475292719074168444365510704342711559699508093042880177904174497792

  /** The value of a digit in radix 16 (for radix 10 only '0'..'9' count). */
  function DigitValue(c: char): nat
  {
    if '0' <= c <= '9' then (c - '0') as nat
    else if 'a' <= c <= 'f' then (c - 'a') as nat + 10
    else if 'A' <= c <= 'F' then (c - 'A') as nat + 10
    else 0
  }

  predicate IsDigit(c: char, radix: nat)
  {
    if radix == 16 then '0' <= c <= '9' || 'a' <= c <= 'f' || 'A' <= c <= 'F' else '0' <= c <= '9'
  }

  /** The longest prefix made of digits of the radix. */
  function LeadingDigits(s: string, radix: nat): (d: string)
    ensures |d| <= |s| && d == s[..|d|]
    ensures forall i :: 0 <= i < |d| ==> IsDigit(d[i], radix)
    ensures |d| < |s| ==> !IsDigit(s[|d|], radix)
  {
    if s != [] && IsDigit(s[0], radix) then [s[0]] + LeadingDigits(s[1..], radix) else []
  }

  /** The number a digit string denotes in the radix. */
  function DigitsValue(d: string, radix: nat): nat
  {
    if d == [] then 0 else DigitsValue(d[..|d| - 1], radix) * radix + DigitValue(d[|d| - 1])
  }

  /** The sign and the rest after the leading whitespace. */
  function Signed(t: string): (r: (int, string))
    ensures r.0 == 1 || r.0 == -1
    ensures r.0 == -1 <==> t != [] && t[0] == '-'
    ensures r.1 == if t != [] && (t[0] == '-' || t[0] == '+') then t[1..] else t
  {
    if t != [] && t[0] == '-' then (-1, t[1..])
    else if t != [] && t[0] == '+' then (1, t[1..])
    else (1, t)
  }

  /** The radix and the digits part: a '0x' or '0X' prefix selects radix 16. */
  function Radix(u: string): (r: (nat, string))
    ensures r.0 == 10 || r.0 == 16
    ensures r.0 == 16 <==> |u| >= 2 && u[0] == '0' && (u[1] == 'x' || u[1] == 'X')
    ensures r.1 == if r.0 == 16 then u[2..] else u
  {
    if |u| >= 2 && u[0] == '0' && (u[1] == 'x' || u[1] == 'X') then (16, u[2..]) else (10, u)
  }

  /** `parseInt(s)` (no radix argument): leading whitespace, a sign, an optional hex
      prefix, then the longest run of digits; no digits is NaN. */
  function ParseInt(s: string): (p: Parsed)
    ensures p.NaN? <==> LeadingDigits(Radix(Signed(TrimStart(s)).1).1, Radix(Signed(TrimStart(s)).1).0) == []
    ensures p.Finite? ==> -Overflow < p.n < Overflow
  {
    var signed := Signed(TrimStart(s));
    var digits := Radix(signed.1);
    var d := LeadingDigits(digits.1, digits.0);
    if d == [] then NaN
    else if DigitsValue(d, digits.0) >= Overflow then Infinite
    else Finite(if signed.0 < 0 then -(DigitsValue(d, digits.0) as int) else DigitsValue(d, digits.0))
  }

  /** The decimal rendering of a natural number. */
  function Decimal(n: nat): (s: string)
    ensures |s| >= 1 && forall i :: 0 <= i < |s| ==> '0' <= s[i] <= '9'
    ensures |s| >= 2 ==> s[0] != '0'
  {
    if n < 10 then [('0' as int + n) as char] else Decimal(n / 10) + [('0' as int + n % 10) as char]
  }

  lemma {:induction false} DecimalValue(n: nat)
    ensures DigitsValue(Decimal(n), 10) == n
  {
    if n >= 10 {
      var s := Decimal(n);
      assert s[..|s| - 1] == Decimal(n / 10);
      DecimalValue(n / 10);
    }
  }

  lemma {:induction false} DecimalDigits(s: string)
    requires forall i :: 0 <= i < |s| ==> '0' <= s[i] <= '9'
    ensures LeadingDigits(s, 10) == s
    decreases |s|
  {
    if s != [] {
      DecimalDigits(s[1..]);
    }
  }

  /** The digits part of an unprefixed decimal numeral is all of it. */
  lemma Unprefixed(digits: string)
    requires digits != [] && forall i :: 0 <= i < |digits| ==> '0' <= digits[i] <= '9'
    requires |digits| >= 2 ==> digits[0] != '0'
    ensures Radix(digits) == (10, digits) && LeadingDigits(digits, 10) == digits
  {
    DecimalDigits(digits);
  }

  /** `parseInt` once the leading whitespace, the sign and the radix are known. */
  lemma ParseParts(s: string, sign: int, digits: string)
    requires Signed(TrimStart(s)) == (sign, digits) && Radix(digits) == (10, digits)
    requires digits != [] && LeadingDigits(digits, 10) == digits && DigitsValue(digits, 10) < Overflow
    ensures ParseInt(s) == Finite(if sign < 0 then -(DigitsValue(digits, 10) as int) else DigitsValue(digits, 10))
  {
  }

  /** A string that starts with something other than whitespace is its own trim. */
  lemma NoLeadingSpace(s: string)
    requires s != [] && ('0' <= s[0] <= '9' || s[0] == '-' || s[0] == '+' || 'a' <= s[0] <= 'z' || 'A' <= s[0] <= 'Z')
    ensures TrimStart(s) == s
  {
    assert !IsWhitespace(s[0]);
  }

  /** `parseInt` of a decimal numeral without a sign. */
  lemma ParseUnsigned(digits: string)
    requires digits != [] && forall i :: 0 <= i < |digits| ==> '0' <= digits[i] <= '9'
    requires |digits| >= 2 ==> digits[0] != '0'
    requires DigitsValue(digits, 10) < Overflow
    ensures ParseInt(digits) == Finite(DigitsValue(digits, 10))
  {
    NoLeadingSpace(digits);
    Unprefixed(digits);
    ParseParts(digits, 1, digits);
  }

  /** `parseInt` of a decimal numeral after a '-' or '+'. */
  lemma ParseSigned(c: char, digits: string)
    requires c == '-' || c == '+'
    requires digits != [] && forall i :: 0 <= i < |digits| ==> '0' <= digits[i] <= '9'
    requires |digits| >= 2 ==> digits[0] != '0'
    requires DigitsValue(digits, 10) < Overflow
    ensures ParseInt([c] + digits) == Finite(if c == '-' then -(DigitsValue(digits, 10) as int) else DigitsValue(digits, 10))
  {
    var t := [c] + digits;
    NoLeadingSpace(t);
    assert t[1..] == digits;
    Unprefixed(digits);
    ParseParts(t, if c == '-' then -1 else 1, digits);
  }

  /** `parseInt` reads back the decimal rendering of every integer a double can hold,
      with or without a sign. */
  lemma ParseDecimal(n: nat)
    requires n < Overflow
    ensures ParseInt(Decimal(n)) == Finite(n)
    ensures ParseInt("-" + Decimal(n)) == Finite(-(n as int))
    ensures ParseInt("+" + Decimal(n)) == Finite(n)
  {
    var s := Decimal(n);
    DecimalValue(n);
    ParseUnsigned(s);
    ParseSigned('-', s);
    ParseSigned('+', s);
  }

  // ---------------------------------------------------------------------------------
  // The normalisers
  // ---------------------------------------------------------------------------------

  /** Clamp into [MinLimit, MaxLimit]. */
  function ClampLimit(n: int): (r: int)
    ensures MinLimit <= r <= MaxLimit
    ensures MinLimit <= n <= MaxLimit ==> r == n
    ensures n > MaxLimit ==> r == MaxLimit
    ensures n < MinLimit ==> r == MinLimit
  {
    if n > MaxLimit then MaxLimit else if n < MinLimit then MinLimit else n
  }

  /** `toLimit(req)`. */
  function ToLimit(q: Query): (limit: int)
    ensures MinLimit <= limit <= MaxLimit
    ensures "limit" !in q ==> limit == MaxLimit
    ensures "limit" in q && !ParseInt(ToJsString(q["limit"])).Finite? ==> limit == MaxLimit
    ensures "limit" in q && ParseInt(ToJsString(q["limit"])).Finite? ==> limit == ClampLimit(ParseInt(ToJsString(q["limit"])).n)
  {
    var limit := if "limit" in q then ParseInt(ToJsString(q["limit"])) else Finite(MaxLimit);
    if !limit.Finite? then MaxLimit
    else ClampLimit(limit.n)
  }

  /** `toOffset(req)`: only a string offset is parsed. */
  function ToOffset(q: Query): (offset: int)
    ensures offset >= 0
    ensures !("offset" in q && q["offset"].QText?) ==> offset == 0
    ensures "offset" in q && q["offset"].QText? ==>
      var p := ParseInt(q["offset"].s);
      offset == if p.Finite? && p.n >= 0 then p.n else 0
  {
    var p := if "offset" in q && q["offset"].QText? then ParseInt(q["offset"].s) else Finite(0);
    if !p.Finite? then 0 else if p.n < 0 then 0 else p.n
  }

  /** `toUpperCase` on the characters whose upper case is an ASCII letter; every other
      character is kept. */
  function UpperChar(c: char): char
  {
    if 'a' <= c <= 'z' then (c as int - 32) as char
    else if c == 'ı' then 'I'
    else if c == 'ſ' then 'S'
    else c
  }

  function ToUpper(s: string): (u: string)
    ensures |u| == |s| && forall i :: 0 <= i < |s| ==> u[i] == UpperChar(s[i])
  {
    if s == [] then [] else [UpperChar(s[0])] + ToUpper(s[1..])
  }

  /** `s` spells `word` (an upper-case ASCII word) in any mix of cases. */
  predicate SpellsIgnoringCase(s: string, word: string)
  {
    |s| == |word| && forall i :: 0 <= i < |s| ==> UpperChar(s[i]) == word[i]
  }

  /** `toOrder(req)`: the ordering pair, by name, descending exactly when the order
      parameter is a string that spells 'desc' in any case. */
  function ToOrder(q: Query): (order: (string, string))
    ensures order.0 == "name"
    ensures order.1 == "ASC" || order.1 == "DESC"
    ensures order.1 == "DESC" <==> "order" in q && q["order"].QText? && SpellsIgnoringCase(q["order"].s, "DESC")
  {
    var order := if "order" in q && q["order"].QText? then ToUpper(q["order"].s) else "ASC";
    assert "order" in q && q["order"].QText? ==> (order == "DESC" <==> SpellsIgnoringCase(q["order"].s, "DESC")) by {
      if "order" in q && q["order"].QText? && SpellsIgnoringCase(q["order"].s, "DESC") {
        assert order == "DESC";
      }
    }
    ("name", if order == "ASC" || order == "DESC" then order else "ASC")
  }

  /** `toWhereClause(req)`: the LIKE pattern for a string name with something besides
      whitespace, null otherwise. */
  function ToWhereClause(q: Query): (pattern: Option<string>)
    ensures pattern.None? <==> !("name" in q && q["name"].QText? && NotEmpty(q["name"].s))
    ensures pattern.Some? ==>
      var t := Trim(q["name"].s);
      && |pattern.value| == Min(|t|, MaxNameLength) + 2
      && pattern.value[0] == '%' && pattern.value[|pattern.value| - 1] == '%'
      && pattern.value[1..|pattern.value| - 1] == t[..Min(|t|, MaxNameLength)]
  {
    if "name" in q && q["name"].QText? && Trim(q["name"].s) != [] then
      var name := Trim(q["name"].s);
      var cut := if |name| > MaxNameLength then name[..MaxNameLength] else name;
      Some("%" + cut + "%")
    else None
  }

  // ---------------------------------------------------------------------------------
  // Properties
  // ---------------------------------------------------------------------------------

  /** A limit given in decimal is that number clamped into [1, 50]. */
  lemma LimitOfDecimal(q: Query, n: nat, negative: bool)
    requires n < Overflow && "limit" in q && q["limit"] == QText(if negative then "-" + Decimal(n) else Decimal(n))
    ensures ToLimit(q) == ClampLimit(if negative then -(n as int) else n)
  {
    ParseDecimal(n);
  }

  /** The offset given in decimal is taken as is; a negative one becomes 0. */
  lemma OffsetOfDecimal(q: Query, n: nat, negative: bool)
    requires n < Overflow && "offset" in q && q["offset"] == QText(if negative then "-" + Decimal(n) else Decimal(n))
    ensures ToOffset(q) == if negative then 0 else n
  {
    ParseDecimal(n);
  }

  /** `parseInt` of a string that starts with a letter is NaN. */
  lemma ParseWord(s: string)
    requires s != [] && ('a' <= s[0] <= 'z' || 'A' <= s[0] <= 'Z')
    ensures ParseInt(s) == NaN
  {
    assert TrimStart(s) == s by {
      assert !IsWhitespace(s[0]);
    }
    assert Signed(s) == (1, s);
    assert Radix(s) == (10, s);
  }

  /** `parseInt` stops at the first character that is not a digit: '5.9' gives 5. */
  lemma ParseFraction()
    ensures ParseInt("5.9") == Finite(5)
  {
    assert TrimStart("5.9") == "5.9" by {
      assert !IsWhitespace('5');
    }
    assert Signed("5.9") == (1, "5.9");
    assert Radix("5.9") == (10, "5.9");
    assert LeadingDigits("5.9", 10) == "5" by {
      assert LeadingDigits(".9", 10) == [];
    }
    assert DigitsValue("5", 10) == 5 by {
      assert "5"[..0] == [];
    }
  }

  lemma ParseOne(one: string, minusOne: string)
    requires one == "1" && minusOne == "-1"
    ensures ParseInt(one) == Finite(1) && ParseInt(minusOne) == Finite(-1)
  {
    assert DigitsValue(one, 10) == 1 by {
      assert one[..0] == [];
    }
    ParseUnsigned(one);
    assert minusOne == ['-'] + one;
    ParseSigned('-', one);
  }

  lemma ParseFiftyTwo()
    ensures ParseInt("52") == Finite(52)
  {
    assert DigitsValue("52", 10) == 52 by {
      assert "52"[..1] == "5";
      assert "5"[..0] == [];
    }
    ParseUnsigned("52");
  }

  lemma LimitFraction() ensures ToLimit(map["limit" := QText("5.9")]) == 5 { ParseFraction(); }
  lemma LimitNegative() ensures ToLimit(map["limit" := QText("-1")]) == 1 { ParseOne("1", "-1"); }
  lemma LimitTooLarge() ensures ToLimit(map["limit" := QText("52")]) == 50 { ParseFiftyTwo(); }
  lemma LimitWord() ensures ToLimit(map["limit" := QText("fnord")]) == 50 { ParseWord("fnord"); }
  lemma OffsetOne() ensures ToOffset(map["offset" := QText("1")]) == 1 { ParseOne("1", "-1"); }
  lemma OffsetNegative() ensures ToOffset(map["offset" := QText("-1")]) == 0 { ParseOne("1", "-1"); }
  lemma OffsetWord() ensures ToOffset(map["offset" := QText("NaN")]) == 0 { ParseWord("NaN"); }

  /** The limits of the query examples: '5.9' gives 5, '-1' gives 1, '52' gives 50,
      'fnord' gives 50. */
  lemma LimitExamples()
    ensures ToLimit(map["limit" := QText("5.9")]) == 5
    ensures ToLimit(map["limit" := QText("-1")]) == 1
    ensures ToLimit(map["limit" := QText("52")]) == 50
    ensures ToLimit(map["limit" := QText("fnord")]) == 50
  {
    LimitFraction();
    LimitNegative();
    LimitTooLarge();
    LimitWord();
  }

  /** The offsets of the query examples: '1' gives 1, '-1' and 'NaN' give 0. */
  lemma OffsetExamples()
    ensures ToOffset(map["offset" := QText("1")]) == 1
    ensures ToOffset(map["offset" := QText("-1")]) == 0
    ensures ToOffset(map["offset" := QText("NaN")]) == 0
  {
    OffsetOne();
    OffsetNegative();
    OffsetWord();
  }

  /** The orders of the query examples: 'aSc' and 'fnord' give ASC, 'dEsC' gives DESC,
      and a value that is not a string gives ASC. */
  lemma OrderExamples(asc: string, desc: string, word: string)
    requires asc == "aSc" && desc == "dEsC" && word == "fnord"
    ensures ToOrder(map["order" := QText(asc)]) == ("name", "ASC")
    ensures ToOrder(map["order" := QText(desc)]) == ("name", "DESC")
    ensures ToOrder(map["order" := QText(word)]) == ("name", "ASC")
    ensures ToOrder(map["order" := QObject]) == ("name", "ASC")
  {
    assert !SpellsIgnoringCase(asc, "DESC");
    assert SpellsIgnoringCase(desc, "DESC");
    assert !SpellsIgnoringCase(word, "DESC");
  }

  /** A name filter never exceeds the cut plus the two wildcards and never starts or ends
      its search text with whitespace. */
  lemma WhereClauseTrimmed(q: Query)
    requires ToWhereClause(q).Some?
    ensures var p := ToWhereClause(q).value;
      && |p| <= MaxNameLength + 2
      && !IsWhitespace(p[1]) && (|Trim(q["name"].s)| <= MaxNameLength ==> !IsWhitespace(p[|p| - 2]))
  {
  }
}
