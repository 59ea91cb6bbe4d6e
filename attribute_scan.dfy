/**
 * The three regular expressions that pick a model's generator attribute out
 * of its documentation comment, as scanners. Each expression is given twice:
 * as the language it denotes (a split of the matched text into the pieces the
 * expression names) and as a scanner that returns the match a backtracking
 * JavaScript matcher returns. The scanners are proved to return the leftmost
 * match, and at that start the longest one, which is what the greedy
 * quantifiers of these expressions produce.
 *
 *   model attribute:  (@@Gen\.)+([A-z])+(\()+(.+)+(\))+
 *   attribute name:   (?:\.)+([A-Za-z])+(?:\()+
 *   attribute args:   (?:\()+([A-Za-z])+\:+(.+)+(?:\))+
 */
module AttributeScan {
  import opened Wrappers
  import opened Strings

  /** The character classes the three expressions use. */
  datatype CharClass =
    | Single(c: char)   // one literal character
    | UpperToLower      // `[A-z]`: 'A' to 'z', which takes in '[', '\\', ']', '^', '_' and '`'
    | AsciiLetter       // `[A-Za-z]`
    | AnyInLine         // `.`: anything but a line terminator

  /** The characters `.` does not match. */
  predicate IsLineTerminator(c: char)
  {
    c == '\n' || c == '\r' || c == '\U{2028}' || c == '\U{2029}'
  }

  predicate InClass(c: char, k: CharClass)
  {
    match k
    case Single(d) => c == d
    case UpperToLower => 'A' <= c <= 'z'
    case AsciiLetter => 'A' <= c <= 'Z' || 'a' <= c <= 'z'
    case AnyInLine => !IsLineTerminator(c)
  }

  /** Every character of `t` is in class `k`. */
  predicate AllIn(t: string, k: CharClass)
  {
    forall i :: 0 <= i < |t| ==> InClass(t[i], k)
  }

  const GenPrefix: string := "@@Gen."

  /** `t` is one or more copies of "@@Gen.". */
  predicate GenRepeat(t: string)
    decreases |t|
  {
    |t| >= 6 && t[..6] == GenPrefix && (|t| == 6 || GenRepeat(t[6..]))
  }

  // ---------------------------------------------------------------------
  // The languages

  /** `t` splits as `(@@Gen\.)+ [A-z]+ \(+ .+ \)+` at `a`, `b`, `c` and `d`. */
  predicate ModelAttributeSplit(t: string, a: nat, b: nat, c: nat, d: nat)
  {
    0 < a < b < c < d < |t|
    && GenRepeat(t[..a])
    && AllIn(t[a..b], UpperToLower)
    && AllIn(t[b..c], Single('('))
    && AllIn(t[c..d], AnyInLine)
    && AllIn(t[d..], Single(')'))
  }

  /** `t` splits as `\.+ [A-Za-z]+ \(+` at `a` and `b`. */
  predicate AttributeNameSplit(t: string, a: nat, b: nat)
  {
    0 < a < b < |t|
    && AllIn(t[..a], Single('.'))
    && AllIn(t[a..b], AsciiLetter)
    && AllIn(t[b..], Single('('))
  }

  /** `t` splits as `\(+ [A-Za-z]+ :+ .+ \)+` at `a`, `b`, `c` and `d`. */
  predicate AttributeArgsSplit(t: string, a: nat, b: nat, c: nat, d: nat)
  {
    0 < a < b < c < d < |t|
    && AllIn(t[..a], Single('('))
    && AllIn(t[a..b], AsciiLetter)
    && AllIn(t[b..c], Single(':'))
    && AllIn(t[c..d], AnyInLine)
    && AllIn(t[d..], Single(')'))
  }

  /** The three expressions. */
  datatype Pattern = ModelAttribute | AttributeName | AttributeArgs

  /** `t` is in the language of `pat`. */
  ghost predicate InLanguage(pat: Pattern, t: string)
  {
    match pat
    case ModelAttribute => exists a, b, c, d :: ModelAttributeSplit(t, a, b, c, d)
    case AttributeName => exists a, b :: AttributeNameSplit(t, a, b)
    case AttributeArgs => exists a, b, c, d :: AttributeArgsSplit(t, a, b, c, d)
  }

  // ---------------------------------------------------------------------
  // The scanners

  /** The end of the longest run of class-`k` characters starting at `i`. */
  function RunEnd(s: string, i: nat, k: CharClass): (j: nat)
    requires i <= |s|
    ensures i <= j <= |s|
    ensures AllIn(s[i..j], k)
    ensures j == |s| || !InClass(s[j], k)
    decreases |s| - i
  {
    if i < |s| && InClass(s[i], k) then RunEnd(s, i + 1, k) else i
  }

  /** The end of the longest run of "@@Gen." copies starting at `i`. */
  function GenRunEnd(s: string, i: nat): (j: nat)
    requires i <= |s|
    ensures i <= j <= |s|
    decreases |s| - i
  {
    if OccursAt(s, GenPrefix, i) then GenRunEnd(s, i + 6) else i
  }

  /** The last index in `[lo, hi)` holding ')'. */
  function LastClose(s: string, lo: nat, hi: nat): (r: Option<nat>)
    requires hi <= |s|
    ensures r.Some? ==> (lo <= r.value < hi && s[r.value] == ')'
      && forall q :: r.value < q < hi ==> s[q] != ')')
    ensures r.None? ==> forall q :: lo <= q < hi ==> s[q] != ')'
    decreases hi
  {
    if hi <= lo then None
    else if s[hi - 1] == ')' then Some(hi - 1)
    else LastClose(s, lo, hi - 1)
  }

  /**
   * How `.+` followed by `\)+` ends when `.+` may start at `b + 1`: after the
   * last ')' of the line at `b + 2` or later.
   */
  function CloseEnd(s: string, b: nat): (r: Option<nat>)
    requires b < |s|
    ensures r.Some? ==> (b + 2 < r.value <= |s| && s[r.value - 1] == ')'
      && AllIn(s[b..r.value], AnyInLine)
      && forall q :: r.value <= q < RunEnd(s, b, AnyInLine) ==> s[q] != ')')
    ensures r.None? ==> forall q :: b + 2 <= q < RunEnd(s, b, AnyInLine) ==> s[q] != ')'
  {
    match LastClose(s, b + 2, RunEnd(s, b, AnyInLine))
    case None => None
    case Some(q) =>
      AllInPart(s, b, RunEnd(s, b, AnyInLine), b, q + 1, AnyInLine);
      Some(q + 1)
  }

  /** The end of the match of `pat` that starts at `p`, if one does. */
  function EndAt(pat: Pattern, s: string, p: nat): (r: Option<nat>)
    requires p <= |s|
    ensures r.Some? ==> p < r.value <= |s| && s[p] == StartChar(pat)
  {
    match pat
    case ModelAttribute =>
      if !OccursAt(s, GenPrefix, p) then None
      else
        assert s[p] == s[p..p + 6][0];
        var a := GenRunEnd(s, p);
        var b := RunEnd(s, a, UpperToLower);
        if a < b < |s| && s[b] == '(' then CloseEnd(s, b) else None
    case AttributeName =>
      if p == |s| || s[p] != '.' then None
      else
        var a := RunEnd(s, p, Single('.'));
        var b := RunEnd(s, a, AsciiLetter);
        if a < b < |s| && s[b] == '(' then Some(RunEnd(s, b, Single('('))) else None
    case AttributeArgs =>
      if p == |s| || s[p] != '(' then None
      else
        var a := RunEnd(s, p, Single('('));
        var b := RunEnd(s, a, AsciiLetter);
        if a < b < |s| && s[b] == ':' then CloseEnd(s, b) else None
  }

  /** The first start at or after `p` where `pat` matches, and the end of that match. */
  function FirstMatchFrom(pat: Pattern, s: string, p: nat): (r: Option<(nat, nat)>)
    requires p <= |s|
    ensures r.Some? ==> (p <= r.value.0 <= |s| && EndAt(pat, s, r.value.0) == Some(r.value.1)
      && forall p' :: p <= p' < r.value.0 ==> EndAt(pat, s, p') == None)
    ensures r.None? ==> forall p' :: p <= p' <= |s| ==> EndAt(pat, s, p') == None
    decreases |s| - p
  {
    match EndAt(pat, s, p)
    case Some(e) => Some((p, e))
    case None => if p == |s| then None else FirstMatchFrom(pat, s, p + 1)
  }

  /** `s.match(pat)?.[0]`: the matched text, if any. */
  function Match(pat: Pattern, s: string): (r: Option<string>)
    ensures r.Some? ==> |r.value| > 0 && exists p: nat :: OccursAt(s, r.value, p)
    ensures r.Some? ==> r.value[0] == StartChar(pat)
  {
    match FirstMatchFrom(pat, s, 0)
    case None => None
    case Some((p, e)) =>
      if p <= e <= |s| then
        assert OccursAt(s, s[p..e], p);
        Some(s[p..e])
      else None
  }

  /** `t.slice(1, -1)`: `t` without its first and last character. */
  function SliceInner(t: string): (r: string)
    ensures |t| >= 2 ==> [t[0]] + r + [t[|t| - 1]] == t
    ensures |t| < 2 ==> r == ""
  {
    if |t| >= 2 then t[1..|t| - 1] else ""
  }

  // ---------------------------------------------------------------------
  // Runs

  /** A run of class-`k` characters from `i` to `j` ends no earlier than `j`. */
  lemma {:induction false} RunEndCovers(s: string, i: nat, j: nat, k: CharClass)
    requires i <= j <= |s| && AllIn(s[i..j], k)
    ensures RunEnd(s, i, k) >= j
    decreases j - i
  {
    if i < j {
      assert s[i..j][0] == s[i];
      assert s[i + 1..j] == s[i..j][1..];
      RunEndCovers(s, i + 1, j, k);
    }
  }

  /** A run that cannot be extended ends where it stops. */
  lemma RunEndExact(s: string, i: nat, j: nat, k: CharClass)
    requires i <= j <= |s| && AllIn(s[i..j], k)
    requires j == |s| || !InClass(s[j], k)
    ensures RunEnd(s, i, k) == j
  {
    RunEndCovers(s, i, j, k);
  }

  /** A run of "@@Gen." copies followed by something other than '@' ends where it stops. */
  lemma {:induction false} GenRunEndOfRepeat(s: string, i: nat, n: nat)
    requires i + n <= |s| && GenRepeat(s[i..i + n])
    requires i + n == |s| || s[i + n] != '@'
    ensures GenRunEnd(s, i) == i + n
    decreases n
  {
    assert s[i..i + n][..6] == s[i..i + 6];
    assert OccursAt(s, GenPrefix, i);
    if n == 6 {
      assert !OccursAt(s, GenPrefix, i + 6) by {
        if i + 6 + 6 <= |s| {
          assert s[i + 6..i + 12][0] == s[i + 6];
        }
      }
    } else {
      assert s[i..i + n][6..] == s[i + 6..i + n];
      GenRunEndOfRepeat(s, i + 6, n - 6);
    }
  }

  /** Whatever the run of "@@Gen." copies from an occurrence covers is such a run. */
  lemma {:induction false} GenRunEndIsRepeat(s: string, i: nat)
    requires i <= |s| && OccursAt(s, GenPrefix, i)
    ensures GenRepeat(s[i..GenRunEnd(s, i)])
    decreases |s| - i
  {
    var j := GenRunEnd(s, i);
    var t := s[i..j];
    assert t[..6] == s[i..i + 6];
    if OccursAt(s, GenPrefix, i + 6) {
      GenRunEndIsRepeat(s, i + 6);
      assert t[6..] == s[i + 6..j];
    } else {
      assert j == i + 6;
    }
  }

  // ---------------------------------------------------------------------
  // Soundness: what a scanner returns is in the language

  /** A slice of a slice is a slice. */
  lemma SliceOfSlice(s: string, p: nat, e: nat, x: nat, y: nat)
    requires p <= e <= |s| && x <= y <= e - p
    ensures s[p..e][x..y] == s[p + x..p + y]
  {
    forall n | 0 <= n < y - x
      ensures s[p..e][x..y][n] == s[p + x..p + y][n]
    {
    }
  }

  /** A part of a run of class-`k` characters is one. */
  lemma AllInPart(s: string, i: nat, j: nat, x: nat, y: nat, k: CharClass)
    requires i <= x <= y <= j <= |s| && AllIn(s[i..j], k)
    ensures AllIn(s[x..y], k)
  {
    forall n | 0 <= n < y - x
      ensures InClass(s[x..y][n], k)
    {
      assert s[x..y][n] == s[i..j][x - i + n];
    }
  }

  /** One character of class `k` is a run of class `k`. */
  lemma AllInOne(s: string, i: nat, k: CharClass)
    requires i < |s| && InClass(s[i], k)
    ensures AllIn(s[i..i + 1], k)
  {
    assert s[i..i + 1][0] == s[i];
  }

  /** A run inside a slice of `s` is the same run inside `s`. */
  lemma AllInSlice(s: string, p: nat, e: nat, x: nat, y: nat, k: CharClass)
    requires p <= e <= |s| && x <= y <= e - p
    ensures AllIn(s[p..e][x..y], k) <==> AllIn(s[p + x..p + y], k)
  {
    SliceOfSlice(s, p, e, x, y);
  }

  /** The pieces of a model attribute, laid out in `s`, make a split of the match. */
  lemma ModelAttributeSplitOf(s: string, p: nat, a: nat, b: nat, q: nat)
    requires p < a < b && b + 1 < q < |s|
    requires GenRepeat(s[p..a]) && AllIn(s[a..b], UpperToLower) && s[b] == '('
    requires AllIn(s[b + 1..q], AnyInLine) && s[q] == ')'
    ensures ModelAttributeSplit(s[p..q + 1], a - p, b - p, b + 1 - p, q - p)
  {
    var e := q + 1;
    SliceOfSlice(s, p, e, 0, a - p);
    AllInSlice(s, p, e, a - p, b - p, UpperToLower);
    AllInOne(s, b, Single('('));
    AllInSlice(s, p, e, b - p, b + 1 - p, Single('('));
    AllInSlice(s, p, e, b + 1 - p, q - p, AnyInLine);
    AllInOne(s, q, Single(')'));
    AllInSlice(s, p, e, q - p, e - p, Single(')'));
  }

  lemma ModelAttributeEndSound(s: string, p: nat)
    requires p <= |s| && EndAt(ModelAttribute, s, p).Some?
    ensures p < EndAt(ModelAttribute, s, p).value <= |s|
    ensures InLanguage(ModelAttribute, s[p..EndAt(ModelAttribute, s, p).value])
  {
    var a := GenRunEnd(s, p);
    var b := RunEnd(s, a, UpperToLower);
    var line := RunEnd(s, b, AnyInLine);
    var q := LastClose(s, b + 2, line).value;
    assert EndAt(ModelAttribute, s, p) == Some(q + 1);
    GenRunEndIsRepeat(s, p);
    AllInPart(s, b, line, b + 1, q, AnyInLine);
    ModelAttributeSplitOf(s, p, a, b, q);
  }

  lemma AttributeNameEndSound(s: string, p: nat)
    requires p <= |s| && EndAt(AttributeName, s, p).Some?
    ensures p < EndAt(AttributeName, s, p).value <= |s|
    ensures InLanguage(AttributeName, s[p..EndAt(AttributeName, s, p).value])
  {
    var a := RunEnd(s, p, Single('.'));
    var b := RunEnd(s, a, AsciiLetter);
    var e := RunEnd(s, b, Single('('));
    assert EndAt(AttributeName, s, p) == Some(e);
    SliceOfSlice(s, p, e, 0, a - p);
    SliceOfSlice(s, p, e, a - p, b - p);
    SliceOfSlice(s, p, e, b - p, e - p);
    assert AttributeNameSplit(s[p..e], a - p, b - p);
  }

  /** The pieces of an argument list, laid out in `s`, make a split of the match. */
  lemma AttributeArgsSplitOf(s: string, p: nat, a: nat, b: nat, q: nat)
    requires p < a < b && b + 1 < q < |s|
    requires AllIn(s[p..a], Single('(')) && AllIn(s[a..b], AsciiLetter) && s[b] == ':'
    requires AllIn(s[b + 1..q], AnyInLine) && s[q] == ')'
    ensures AttributeArgsSplit(s[p..q + 1], a - p, b - p, b + 1 - p, q - p)
  {
    var e := q + 1;
    AllInSlice(s, p, e, 0, a - p, Single('('));
    AllInSlice(s, p, e, a - p, b - p, AsciiLetter);
    AllInOne(s, b, Single(':'));
    AllInSlice(s, p, e, b - p, b + 1 - p, Single(':'));
    AllInSlice(s, p, e, b + 1 - p, q - p, AnyInLine);
    AllInOne(s, q, Single(')'));
    AllInSlice(s, p, e, q - p, e - p, Single(')'));
  }

  lemma AttributeArgsEndSound(s: string, p: nat)
    requires p <= |s| && EndAt(AttributeArgs, s, p).Some?
    ensures p < EndAt(AttributeArgs, s, p).value <= |s|
    ensures InLanguage(AttributeArgs, s[p..EndAt(AttributeArgs, s, p).value])
  {
    var a := RunEnd(s, p, Single('('));
    var b := RunEnd(s, a, AsciiLetter);
    var line := RunEnd(s, b, AnyInLine);
    var q := LastClose(s, b + 2, line).value;
    assert EndAt(AttributeArgs, s, p) == Some(q + 1);
    AllInPart(s, b, line, b + 1, q, AnyInLine);
    AttributeArgsSplitOf(s, p, a, b, q);
  }

  /** A match the scanner returns is in the expression's language. */
  lemma EndAtSound(pat: Pattern, s: string, p: nat)
    requires p <= |s| && EndAt(pat, s, p).Some?
    ensures p < EndAt(pat, s, p).value <= |s|
    ensures InLanguage(pat, s[p..EndAt(pat, s, p).value])
  {
    match pat {
      case ModelAttribute => ModelAttributeEndSound(s, p);
      case AttributeName => AttributeNameEndSound(s, p);
      case AttributeArgs => AttributeArgsEndSound(s, p);
    }
  }

  // ---------------------------------------------------------------------
  // Completeness: every match at a start is found there, and is no longer

  /**
   * The tail `.+ \)+` of a match that reaches `b` without crossing a line
   * ends no later than the scanner's end.
   */
  lemma CloseEndCovers(s: string, b: nat, e: nat)
    requires b + 2 < e <= |s|
    requires AllIn(s[b..e], AnyInLine) && s[e - 1] == ')'
    ensures CloseEnd(s, b).Some? && e <= CloseEnd(s, b).value
  {
    RunEndCovers(s, b, e, AnyInLine);
  }

  /** The tail `X+ .+ \)+` of a split stays within one line and ends with ')'. */
  lemma TailInLine(t: string, b: nat, c: nat, d: nat, x: char)
    requires b < c < d < |t| && !IsLineTerminator(x)
    requires AllIn(t[b..c], Single(x)) && AllIn(t[c..d], AnyInLine) && AllIn(t[d..], Single(')'))
    ensures AllIn(t[b..], AnyInLine) && t[|t| - 1] == ')'
  {
    forall i | b <= i < |t|
      ensures InClass(t[i], AnyInLine)
    {
      if i < c {
        assert t[b..c][i - b] == t[i];
      } else if i < d {
        assert t[c..d][i - c] == t[i];
      } else {
        assert t[d..][i - d] == t[i];
      }
    }
    assert t[d..][|t| - 1 - d] == t[|t| - 1];
  }

  /** The head `(@@Gen\.)+ [A-z]+` of a split is what the scanner's first two runs cover. */
  lemma ModelAttributeHead(s: string, p: nat, e: nat, a: nat, b: nat)
    requires p <= e <= |s| && 0 < a < b < e - p
    requires GenRepeat(s[p..e][..a]) && AllIn(s[p..e][a..b], UpperToLower) && s[p + b] == '('
    ensures GenRunEnd(s, p) == p + a && RunEnd(s, p + a, UpperToLower) == p + b
  {
    var t := s[p..e];
    assert t[..a] == s[p..p + a];
    assert t[a] == s[p + a];
    GenRunEndOfRepeat(s, p, a);
    AllInSlice(s, p, e, a, b, UpperToLower);
    RunEndExact(s, p + a, p + b, UpperToLower);
  }

  lemma ModelAttributeEndComplete(s: string, p: nat, e: nat, a: nat, b: nat, c: nat, d: nat)
    requires p <= e <= |s| && ModelAttributeSplit(s[p..e], a, b, c, d)
    ensures EndAt(ModelAttribute, s, p).Some? && e <= EndAt(ModelAttribute, s, p).value
  {
    var t := s[p..e];
    assert t[..6] == s[p..p + 6];
    assert OccursAt(s, GenPrefix, p);
    assert t[b] == s[p + b] == '(' by {
      assert t[b..c][0] == t[b];
    }
    ModelAttributeHead(s, p, e, a, b);
    TailInLine(t, b, c, d, '(');
    assert t[b..] == t[b..e - p];
    AllInSlice(s, p, e, b, e - p, AnyInLine);
    ModelAttributeEndReaches(s, p, p + a, p + b, e);
  }

  /**
   * Once its two head runs are known and the line holds a ')' at `e - 1`, the
   * model expression's match at `p` reaches `e`.
   */
  lemma ModelAttributeEndReaches(s: string, p: nat, a: nat, b: nat, e: nat)
    requires p <= |s| && OccursAt(s, GenPrefix, p)
    requires GenRunEnd(s, p) == a && RunEnd(s, a, UpperToLower) == b
    requires a < b && b + 2 < e <= |s| && s[b] == '('
    requires AllIn(s[b..e], AnyInLine) && s[e - 1] == ')'
    ensures EndAt(ModelAttribute, s, p).Some? && e <= EndAt(ModelAttribute, s, p).value
  {
    assert EndAt(ModelAttribute, s, p) == CloseEnd(s, b);
    CloseEndCovers(s, b, e);
  }

  lemma AttributeNameEndComplete(s: string, p: nat, e: nat, a: nat, b: nat)
    requires p <= e <= |s| && AttributeNameSplit(s[p..e], a, b)
    ensures EndAt(AttributeName, s, p).Some? && e <= EndAt(AttributeName, s, p).value
  {
    var t := s[p..e];
    assert s[p] == '.' by {
      assert t[..a][0] == s[p];
    }
    assert t[..a] == s[p..p + a];
    assert t[a..b] == s[p + a..p + b] by {
      forall i | 0 <= i < b - a
        ensures t[a..b][i] == s[p + a..p + b][i]
      {
      }
    }
    assert t[b..] == s[p + b..e];
    RunEndExact(s, p, p + a, Single('.'));
    RunEndExact(s, p + a, p + b, AsciiLetter);
    RunEndCovers(s, p + b, e, Single('('));
  }

  /** The head `\(+ [A-Za-z]+` of a split is what the scanner's first two runs cover. */
  lemma AttributeArgsHead(s: string, p: nat, e: nat, a: nat, b: nat)
    requires p <= e <= |s| && 0 < a < b < e - p
    requires AllIn(s[p..e][..a], Single('(')) && AllIn(s[p..e][a..b], AsciiLetter) && s[p + b] == ':'
    ensures s[p] == '(' && RunEnd(s, p, Single('(')) == p + a && RunEnd(s, p + a, AsciiLetter) == p + b
  {
    var t := s[p..e];
    assert t[..a][0] == s[p];
    assert t[..a] == s[p..p + a];
    AllInSlice(s, p, e, a, b, AsciiLetter);
    RunEndExact(s, p, p + a, Single('('));
    RunEndExact(s, p + a, p + b, AsciiLetter);
  }

  lemma AttributeArgsEndComplete(s: string, p: nat, e: nat, a: nat, b: nat, c: nat, d: nat)
    requires p <= e <= |s| && AttributeArgsSplit(s[p..e], a, b, c, d)
    ensures EndAt(AttributeArgs, s, p).Some? && e <= EndAt(AttributeArgs, s, p).value
  {
    var t := s[p..e];
    assert t[b] == s[p + b] == ':' by {
      assert t[b..c][0] == t[b];
    }
    AttributeArgsHead(s, p, e, a, b);
    TailInLine(t, b, c, d, ':');
    assert t[b..] == t[b..e - p];
    AllInSlice(s, p, e, b, e - p, AnyInLine);
    CloseEndCovers(s, p + b, e);
  }

  /** Every match of `pat` starting at `p` is found there, and ends no later than the scanner's. */
  lemma EndAtComplete(pat: Pattern, s: string, p: nat, e: nat)
    requires p <= e <= |s| && InLanguage(pat, s[p..e])
    ensures EndAt(pat, s, p).Some? && e <= EndAt(pat, s, p).value
  {
    match pat {
      case ModelAttribute =>
        var a, b, c, d :| ModelAttributeSplit(s[p..e], a, b, c, d);
        ModelAttributeEndComplete(s, p, e, a, b, c, d);
      case AttributeName =>
        var a, b :| AttributeNameSplit(s[p..e], a, b);
        AttributeNameEndComplete(s, p, e, a, b);
      case AttributeArgs =>
        var a, b, c, d :| AttributeArgsSplit(s[p..e], a, b, c, d);
        AttributeArgsEndComplete(s, p, e, a, b, c, d);
    }
  }

  /**
   * `Match` returns the leftmost match of the expression, and at that start
   * the longest; when it returns nothing, no substring is in the language.
   */
  lemma MatchIsLeftmostLongest(pat: Pattern, s: string)
    ensures match FirstMatchFrom(pat, s, 0)
      case Some((p, e)) =>
        p < e <= |s| && Match(pat, s) == Some(s[p..e]) && InLanguage(pat, s[p..e])
        && (forall p', e' :: 0 <= p' < p && p' <= e' <= |s| ==> !InLanguage(pat, s[p'..e']))
        && (forall e' :: e < e' <= |s| ==> !InLanguage(pat, s[p..e']))
      case None =>
        Match(pat, s) == None
        && forall p', e' :: 0 <= p' <= e' <= |s| ==> !InLanguage(pat, s[p'..e'])
  {
    match FirstMatchFrom(pat, s, 0) {
      case Some((p, e)) =>
        EndAtSound(pat, s, p);
        forall p', e' | 0 <= p' < p && p' <= e' <= |s|
          ensures !InLanguage(pat, s[p'..e'])
        {
          if InLanguage(pat, s[p'..e']) {
            EndAtComplete(pat, s, p', e');
          }
        }
        forall e' | e < e' <= |s|
          ensures !InLanguage(pat, s[p..e'])
        {
          if InLanguage(pat, s[p..e']) {
            EndAtComplete(pat, s, p, e');
          }
        }
      case None =>
        forall p', e' | 0 <= p' <= e' <= |s|
          ensures !InLanguage(pat, s[p'..e'])
        {
          if InLanguage(pat, s[p'..e']) {
            EndAtComplete(pat, s, p', e');
          }
        }
    }
  }

  // ---------------------------------------------------------------------
  // Locating a match

  /** The character every match of `pat` begins with. */
  function StartChar(pat: Pattern): char
  {
    match pat
    case ModelAttribute => GenPrefix[0]
    case AttributeName => '.'
    case AttributeArgs => '('
  }

  /** No match starts at a position that does not hold the start character. */
  lemma NoMatchWithoutStart(pat: Pattern, s: string, p: nat)
    requires p <= |s| && (p == |s| || s[p] != StartChar(pat))
    ensures EndAt(pat, s, p) == None
  {
    if pat == ModelAttribute && p + |GenPrefix| <= |s| {
      assert s[p..p + |GenPrefix|][0] == s[p];
    }
  }

  /**
   * When the start character first occurs at `q` and a match starts there,
   * that match is the one the search returns.
   */
  lemma MatchAt(pat: Pattern, s: string, q: nat, e: nat)
    requires q <= e <= |s| && EndAt(pat, s, q) == Some(e)
    requires StartChar(pat) !in s[..q]
    ensures Match(pat, s) == Some(s[q..e])
  {
    forall i | 0 <= i < q
      ensures EndAt(pat, s, i) == None
    {
      assert s[..q][i] == s[i];
      NoMatchWithoutStart(pat, s, i);
    }
    var r := FirstMatchFrom(pat, s, 0);
    assert r.Some?;
    assert !(r.value.0 < q);
    assert !(q < r.value.0);
    assert r.value == (q, e);
  }
  /** What `Match` returns occurs in `s` and is in the expression's language. */
  lemma MatchOccurs(pat: Pattern, s: string) returns (p: nat)
    requires Match(pat, s).Some?
    ensures OccursAt(s, Match(pat, s).value, p)
    ensures InLanguage(pat, Match(pat, s).value)
  {
    MatchIsLeftmostLongest(pat, s);
    p := FirstMatchFrom(pat, s, 0).value.0;
  }

  /** A model attribute starts with "@@Gen.". */
  lemma ModelAttributeWordStart(t: string)
    requires InLanguage(ModelAttribute, t)
    ensures OccursAt(t, GenPrefix, 0)
  {
    var a: nat, b: nat, c: nat, d: nat :| ModelAttributeSplit(t, a, b, c, d);
    assert t[..a][..6] == t[..6];
  }

  /** An attribute name starts with '.' and ends with '(', with a letter between. */
  lemma AttributeNameWordEnds(t: string)
    requires InLanguage(AttributeName, t)
    ensures |t| >= 3 && t[0] == '.' && t[|t| - 1] == '('
  {
    var a: nat, b: nat :| AttributeNameSplit(t, a, b);
    assert t[..a][0] == t[0];
    assert t[b..][|t| - 1 - b] == t[|t| - 1];
  }

  /** An argument list starts with '(' and ends with ')', with a letter, a ':' and a character between. */
  lemma AttributeArgsWordEnds(t: string)
    requires InLanguage(AttributeArgs, t)
    ensures |t| >= 5 && t[0] == '(' && t[|t| - 1] == ')'
  {
    var a: nat, b: nat, c: nat, d: nat :| AttributeArgsSplit(t, a, b, c, d);
    assert t[..a][0] == t[0];
    assert t[d..][|t| - 1 - d] == t[|t| - 1];
  }

  /** `\:+` gives back a colon so that `.+` can take it: the whole of `(a::)` matches. */
  lemma ArgsColonRunShortened()
    ensures Match(AttributeArgs, "(a::)") == Some("(a::)")
  {
    var s := "(a::)";
    assert RunEnd(s, 0, Single('(')) == 1;
    assert RunEnd(s, 1, AsciiLetter) == 2;
    assert RunEnd(s, 2, AnyInLine) == 5;
    assert LastClose(s, 4, 5) == Some(4);
    assert EndAt(AttributeArgs, s, 0) == Some(5);
    MatchAt(AttributeArgs, s, 0, 5);
    assert s[0..5] == s;
  }

  /** `(\()+` gives back a parenthesis in the same way: the whole of `@@Gen.m(()` matches. */
  lemma ModelParenRunShortened()
    ensures Match(ModelAttribute, "@@Gen.m(()") == Some("@@Gen.m(()")
  {
    var s := "@@Gen.m(()";
    assert OccursAt(s, GenPrefix, 0) && !OccursAt(s, GenPrefix, 6);
    assert GenRunEnd(s, 6) == 6;
    assert GenRunEnd(s, 0) == 6;
    assert RunEnd(s, 6, UpperToLower) == 7;
    assert RunEnd(s, 7, AnyInLine) == 10;
    assert LastClose(s, 9, 10) == Some(9);
    assert EndAt(ModelAttribute, s, 0) == Some(10);
    MatchAt(ModelAttribute, s, 0, 10);
    assert s[0..10] == s;
  }
}
