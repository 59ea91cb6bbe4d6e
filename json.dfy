/**
 * The part of `JSON.parse` that annotation values go through: the JSON text
 * grammar for literals, numbers, strings, arrays and the empty object, and
 * JavaScript truthiness of the parsed value.
 */
module Json {
  import opened Wrappers

  /**
   * A parsed JSON value. Numbers keep their lexeme and strings their raw
   * characters between the quotes (escapes are checked, not decoded): the
   * model only needs their truthiness. Objects are only ever empty here,
   * because every text handed to the parser is free of ':'.
   */
  datatype Json =
    | JNull
    | JBool(b: bool)
    | JNumber(lexeme: string)
    | JString(raw: string)
    | JArray(elements: seq<Json>)
    | JEmptyObject

  /** JavaScript truthiness of the value `JSON.parse` returns. */
  predicate Truthy(v: Json)
  {
    match v
    case JNull => false
    case JBool(b) => b
    case JNumber(lexeme) => HasNonZeroMantissaDigit(lexeme)
    case JString(raw) => raw != ""
    case JArray(_) => true
    case JEmptyObject => true
  }

  /** A number is non-zero when a digit before any exponent is non-zero. */
  predicate HasNonZeroMantissaDigit(lexeme: string)
  {
    exists k :: 0 <= k < |lexeme| && '1' <= lexeme[k] <= '9'
      && forall j :: 0 <= j < k ==> lexeme[j] != 'e' && lexeme[j] != 'E'
  }

  predicate IsJsonWhitespace(c: char)
  {
    c == ' ' || c == '\t' || c == '\n' || c == '\r'
  }

  predicate IsDigit(c: char)
  {
    '0' <= c <= '9'
  }

  predicate IsHexDigit(c: char)
  {
    IsDigit(c) || 'a' <= c <= 'f' || 'A' <= c <= 'F'
  }

  /** The first index at or after `i` that is not JSON white space. */
  function SkipWhitespace(s: string, i: nat): (j: nat)
    requires i <= |s|
    ensures i <= j <= |s|
    ensures forall k :: i <= k < j ==> IsJsonWhitespace(s[k])
    ensures j < |s| ==> !IsJsonWhitespace(s[j])
    decreases |s| - i
  {
    if i < |s| && IsJsonWhitespace(s[i]) then SkipWhitespace(s, i + 1) else i
  }

  /** The end of the run of decimal digits starting at `i`. */
  function SkipDigits(s: string, i: nat): (j: nat)
    requires i <= |s|
    ensures i <= j <= |s|
    ensures forall k :: i <= k < j ==> IsDigit(s[k])
    ensures j < |s| ==> !IsDigit(s[j])
    decreases |s| - i
  {
    if i < |s| && IsDigit(s[i]) then SkipDigits(s, i + 1) else i
  }

  /** `s` holds the literal word `w` at index `i`. */
  predicate HasWordAt(s: string, i: nat, w: string)
  {
    i + |w| <= |s| && s[i..i + |w|] == w
  }

  /** The end of the fraction part (`.` digits) starting at `i`, if it is well formed. */
  function ParseFraction(s: string, i: nat): (r: Option<nat>)
    requires i <= |s|
    ensures r.Some? ==> i <= r.value <= |s|
  {
    if i < |s| && s[i] == '.' then
      var j := SkipDigits(s, i + 1);
      if j == i + 1 then None else Some(j)
    else Some(i)
  }

  /** The end of the exponent part (`e`, sign, digits) starting at `i`, if it is well formed. */
  function ParseExponent(s: string, i: nat): (r: Option<nat>)
    requires i <= |s|
    ensures r.Some? ==> i <= r.value <= |s|
  {
    if i < |s| && (s[i] == 'e' || s[i] == 'E') then
      var d := if i + 1 < |s| && (s[i + 1] == '+' || s[i + 1] == '-') then i + 2 else i + 1;
      var j := SkipDigits(s, d);
      if j == d then None else Some(j)
    else Some(i)
  }

  /** The end of the number starting at `i`: `-`? (`0` | [1-9][0-9]*) fraction? exponent?. */
  function ParseNumber(s: string, i: nat): (r: Option<nat>)
    requires i <= |s|
    ensures r.Some? ==> i < r.value <= |s|
  {
    var d := if i < |s| && s[i] == '-' then i + 1 else i;
    if d >= |s| || !IsDigit(s[d]) then None
    else
      var intEnd := if s[d] == '0' then d + 1 else SkipDigits(s, d + 1);
      match ParseFraction(s, intEnd)
      case None => None
      case Some(fracEnd) => ParseExponent(s, fracEnd)
  }

  /** The index just after the closing quote of the string body starting at `i`, if well formed. */
  function ParseStringBody(s: string, i: nat): (r: Option<nat>)
    requires i <= |s|
    ensures r.Some? ==> i < r.value <= |s|
    decreases |s| - i
  {
    if i >= |s| then None
    else if s[i] == '"' then Some(i + 1)
    else if s[i] == '\\' then
      if i + 1 >= |s| then None
      else if s[i + 1] in "\"\\/bfnrt" then ParseStringBody(s, i + 2)
      else if s[i + 1] == 'u' && i + 6 <= |s|
              && IsHexDigit(s[i + 2]) && IsHexDigit(s[i + 3])
              && IsHexDigit(s[i + 4]) && IsHexDigit(s[i + 5])
      then ParseStringBody(s, i + 6)
      else None
    else if (s[i] as int) < 0x20 then None
    else ParseStringBody(s, i + 1)
  }

  /** The value starting at index `i` (no leading white space) and the index after it. */
  function ParseValue(s: string, i: nat): (r: Option<(Json, nat)>)
    requires i <= |s|
    ensures r.Some? ==> i < r.value.1 <= |s|
    decreases |s| - i, 1
  {
    if i >= |s| then None
    else if HasWordAt(s, i, "null") then Some((JNull, i + 4))
    else if HasWordAt(s, i, "true") then Some((JBool(true), i + 4))
    else if HasWordAt(s, i, "false") then Some((JBool(false), i + 5))
    else if s[i] == '"' then
      match ParseStringBody(s, i + 1)
      case None => None
      case Some(j) => Some((JString(s[i + 1..j - 1]), j))
    else if s[i] == '-' || IsDigit(s[i]) then
      match ParseNumber(s, i)
      case None => None
      case Some(j) => Some((JNumber(s[i..j]), j))
    else if s[i] == '{' then
      var k := SkipWhitespace(s, i + 1);
      if k < |s| && s[k] == '}' then Some((JEmptyObject, k + 1)) else None
    else if s[i] == '[' then
      var k := SkipWhitespace(s, i + 1);
      if k < |s| && s[k] == ']' then Some((JArray([]), k + 1))
      else
        match ParseValue(s, k)
        case None => None
        case Some((first, j)) =>
          match ParseMoreElements(s, j, [first])
          case None => None
          case Some((elements, e)) => Some((JArray(elements), e))
    else None
  }

  /** The rest of an array after an element ending at `i`: more `, value` pairs, then `]`. */
  function ParseMoreElements(s: string, i: nat, acc: seq<Json>): (r: Option<(seq<Json>, nat)>)
    requires i <= |s|
    ensures r.Some? ==> i < r.value.1 <= |s|
    decreases |s| - i, 0
  {
    var k := SkipWhitespace(s, i);
    if k >= |s| then None
    else if s[k] == ']' then Some((acc, k + 1))
    else if s[k] == ',' then
      var v := SkipWhitespace(s, k + 1);
      match ParseValue(s, v)
      case None => None
      case Some((next, j)) => ParseMoreElements(s, j, acc + [next])
    else None
  }

  /** `JSON.parse(text)`: `None` where it throws a SyntaxError. */
  function Parse(text: string): (r: Option<Json>)
    ensures r.Some? ==> exists k :: 0 <= k < |text| && !IsJsonWhitespace(text[k])
  {
    var i := SkipWhitespace(text, 0);
    match ParseValue(text, i)
    case None => None
    case Some((v, j)) =>
      if SkipWhitespace(text, j) == |text| then Some(v) else None
  }

  /** The boolean literals parse to the booleans they name. */
  lemma ParseBooleans()
    ensures Parse("true") == Some(JBool(true))
    ensures Parse("false") == Some(JBool(false))
  {
    assert HasWordAt("true", 0, "true");
    assert "false"[0..4][0] == 'f';
    assert HasWordAt("false", 0, "false");
  }

  /** A bare word that is not a JSON literal is rejected. */
  lemma ParseRejectsYes()
    ensures Parse("yes") == None
  {
  }

  /** `null`, `0` and `""` parse to falsy values. */
  lemma ParseFalsyLiterals()
    ensures Parse("null") == Some(JNull) && !Truthy(JNull)
    ensures Parse("0") == Some(JNumber("0")) && !Truthy(JNumber("0"))
    ensures Parse("\"\"") == Some(JString("")) && !Truthy(JString(""))
  {
    assert HasWordAt("null", 0, "null");
    assert "0"[0..1] == "0";
    assert "\"\""[1..1] == "";
  }
}
