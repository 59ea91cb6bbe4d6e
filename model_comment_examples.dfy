/**
 * The model-comment rules on the documentation line `@@Gen.model(hide: <w>)`
 * for any plain value text `w`: the model is hidden exactly when `w` parses
 * to a truthy JSON value, kept when it parses to a falsy one, and the scan
 * throws when `w` is not JSON. Each step is stated for a string variable
 * equal to the line rather than for a literal, which keeps every proof
 * obligation small.
 */
module ModelCommentExamples {
  import opened Wrappers
  import opened Strings
  import opened Json
  import opened AttributeScan
  import opened ModelComments

  const HidePrefix: string := "@@Gen.model(hide: "

  /** The documentation line `@@Gen.model(hide: <w>)`. */
  function HideDoc(w: string): string
  {
    HidePrefix + w + ")"
  }

  /**
   * A value text that the argument cutting leaves whole: non-empty, on one
   * line, with no ':' or ',' and no white space at its ends.
   */
  predicate PlainValue(w: string)
  {
    |w| > 0 && !IsJsWhitespace(w[0]) && !IsJsWhitespace(w[|w| - 1])
    && ':' !in w && ',' !in w
    && forall i :: 0 <= i < |w| ==> !IsLineTerminator(w[i])
  }

  // ---------------------------------------------------------------------
  // The layout of the line

  lemma PrefixLayout(p: string)
    requires p == HidePrefix
    ensures |p| == 18
    ensures p[..6] == GenPrefix && p[..5] == "@@Gen" && p[..11] == "@@Gen.model"
    ensures p[5] == '.' && p[6..11] == "model" && p[11] == '(' && p[12] == 'h'
    ensures p[12..16] == "hide" && p[16] == ':' && p[12..] == "hide: "
    ensures forall i :: 0 <= i < 18 ==> !IsLineTerminator(p[i])
  {
  }

  lemma HideDocLayout(s: string, w: string)
    requires s == HideDoc(w)
    ensures |s| == 19 + |w|
    ensures s[..6] == GenPrefix && s[..5] == "@@Gen" && s[..11] == "@@Gen.model"
    ensures s[5] == '.' && s[6..11] == "model" && s[11] == '(' && s[12] == 'h'
    ensures s[12..16] == "hide" && s[16] == ':' && s[12..18] == "hide: "
    ensures s[18..|s| - 1] == w && s[|s| - 1] == ')'
    ensures forall i :: 0 <= i < 18 ==> !IsLineTerminator(s[i])
  {
    var p := HidePrefix;
    PrefixLayout(p);
    assert s[..18] == p;
    assert s[..6] == p[..6] && s[..5] == p[..5] && s[..11] == p[..11];
    assert s[6..11] == p[6..11] && s[12..16] == p[12..16] && s[12..18] == p[12..];
  }

  /** From the '(' on, the line holds no line terminator. */
  lemma HideDocInLine(s: string, w: string)
    requires s == HideDoc(w) && PlainValue(w)
    ensures AllIn(s[11..], AnyInLine)
  {
    HideDocLayout(s, w);
    forall i | 11 <= i < |s|
      ensures InClass(s[i], AnyInLine)
    {
      if 18 <= i < |s| - 1 {
        assert s[i] == s[18..|s| - 1][i - 18];
      }
    }
  }

  lemma HeadChars(t: string)
    requires t == "@@Gen.model"
    ensures '(' !in t && '.' !in t[..5]
  {
    assert t[..5] == "@@Gen";
  }

  /** No '.' before the one that ends "@@Gen.", no '(' before the one after `model`. */
  lemma HideDocHead(s: string, w: string)
    requires s == HideDoc(w)
    ensures '.' !in s[..5] && '(' !in s[..11]
  {
    HideDocLayout(s, w);
    HeadChars(s[..11]);
    assert s[..11][..5] == s[..5];
  }

  // ---------------------------------------------------------------------
  // The attribute: the whole line

  lemma HideDocGenRun(s: string, w: string)
    requires s == HideDoc(w)
    ensures OccursAt(s, GenPrefix, 0) && GenRunEnd(s, 0) == 6
  {
    HideDocLayout(s, w);
    assert s[6..12][0] == s[6];
    assert !OccursAt(s, GenPrefix, 6);
  }

  lemma HideDocModelWord(s: string, w: string)
    requires s == HideDoc(w)
    ensures RunEnd(s, 6, UpperToLower) == 11 && RunEnd(s, 6, AsciiLetter) == 11
  {
    HideDocLayout(s, w);
    RunEndExact(s, 6, 11, UpperToLower);
    RunEndExact(s, 6, 11, AsciiLetter);
  }

  lemma HideDocClose(s: string, w: string, lo: nat)
    requires s == HideDoc(w) && PlainValue(w) && lo <= 18
    ensures RunEnd(s, 11, AnyInLine) == |s|
    ensures LastClose(s, lo, |s|) == Some(|s| - 1)
  {
    HideDocLayout(s, w);
    HideDocInLine(s, w);
    RunEndExact(s, 11, |s|, AnyInLine);
  }

  /** The model-attribute expression matches the whole line. */
  lemma HideDocAttribute(s: string, w: string)
    requires s == HideDoc(w) && PlainValue(w)
    ensures Match(ModelAttribute, s) == Some(s)
  {
    HideDocLayout(s, w);
    HideDocGenRun(s, w);
    HideDocModelWord(s, w);
    HideDocClose(s, w, 13);
    assert EndAt(ModelAttribute, s, 0) == Some(|s|);
    MatchAt(ModelAttribute, s, 0, |s|);
    assert s[0..|s|] == s;
  }

  // ---------------------------------------------------------------------
  // The attribute name: `model`

  lemma HideDocNameEnd(s: string, w: string)
    requires s == HideDoc(w)
    ensures EndAt(AttributeName, s, 5) == Some(12)
  {
    HideDocLayout(s, w);
    RunEndExact(s, 5, 6, Single('.'));
    HideDocModelWord(s, w);
    RunEndExact(s, 11, 12, Single('('));
  }

  lemma ModelWordInner(t: string)
    requires t == ".model("
    ensures SliceInner(t) == "model"
  {
    assert |t| == 7 && t[1] == 'm' && t[5] == 'l';
    assert t[1..6] == "model";
  }

  lemma HideDocNameMatch(s: string, w: string)
    requires s == HideDoc(w)
    ensures Match(AttributeName, s) == Some(s[5..12])
  {
    HideDocNameEnd(s, w);
    HideDocHead(s, w);
    MatchAt(AttributeName, s, 5, 12);
  }

  lemma HideDocNameText(s: string, w: string)
    requires s == HideDoc(w)
    ensures s[5..12] == ".model("
  {
    HideDocLayout(s, w);
    assert s[5..12] == [s[5]] + s[6..11] + [s[11]];
  }

  /** The attribute's name is `model`. */
  lemma HideDocNameIsModel(s: string, w: string)
    requires s == HideDoc(w)
    ensures AttributeNameOf(s) == Some("model")
  {
    HideDocNameMatch(s, w);
    HideDocNameText(s, w);
    ModelWordInner(s[5..12]);
  }

  // ---------------------------------------------------------------------
  // The raw arguments: `hide: <w>`

  lemma HideDocArgsEnd(s: string, w: string)
    requires s == HideDoc(w) && PlainValue(w)
    ensures EndAt(AttributeArgs, s, 11) == Some(|s|)
  {
    HideDocLayout(s, w);
    RunEndExact(s, 11, 12, Single('('));
    RunEndExact(s, 12, 16, AsciiLetter);
    HideDocInLine(s, w);
    AllInPart(s, 11, |s|, 16, |s|, AnyInLine);
    RunEndExact(s, 16, |s|, AnyInLine);
    HideDocClose(s, w, 18);
  }

  lemma HideDocArgsMatch(s: string, w: string)
    requires s == HideDoc(w) && PlainValue(w)
    ensures Match(AttributeArgs, s) == Some(s[11..])
  {
    HideDocArgsEnd(s, w);
    HideDocHead(s, w);
    MatchAt(AttributeArgs, s, 11, |s|);
    assert s[11..|s|] == s[11..];
  }

  lemma HideDocArgsText(s: string, w: string)
    requires s == HideDoc(w)
    ensures SliceInner(s[11..]) == "hide: " + w
  {
    HideDocLayout(s, w);
    assert SliceInner(s[11..]) == s[12..|s| - 1];
    assert s[12..|s| - 1] == s[12..18] + s[18..|s| - 1];
  }

  /** The raw argument text is `hide: <w>`. */
  lemma HideDocRawArgs(s: string, w: string)
    requires s == HideDoc(w) && PlainValue(w)
    ensures RawArgsOf(s) == Some("hide: " + w)
  {
    HideDocArgsMatch(s, w);
    HideDocArgsText(s, w);
  }

  // ---------------------------------------------------------------------
  // The parsed arguments

  lemma SpacedValueTrimmed(w: string)
    requires PlainValue(w)
    ensures Trim([' '] + w) == w
  {
    TrimLeadingWhitespace(' ', w);
    TrimUntrimmed(w);
  }

  lemma HidePairShape(w: string, key: string, value: string)
    requires key == "hide" && value == [' '] + w
    ensures "hide: " + w == key + ":" + value
    ensures ':' !in key && ',' !in key && !StartsWith(key, "[")
  {
    assert key[0] == 'h';
  }

  /** The argument text splits into the key `hide` and the value text. */
  lemma HideDocArgParts(w: string)
    requires PlainValue(w)
    ensures ArgParts("hide: " + w) == ["hide", w]
  {
    var key, value := "hide", [' '] + w;
    HidePairShape(w, key, value);
    TrimUntrimmed(key);
    SpacedValueTrimmed(w);
    ArgPartsOfPair(key, value);
  }

  /** The verdict of a model whose attribute is the whole line, from its name and arguments. */
  lemma VerdictFromParts(m: Model, d: string, raw: string)
    requires m.documentation == Some(d) && d != ""
    requires Match(ModelAttribute, d) == Some(d)
    requires AttributeNameOf(d) == Some("model")
    requires RawArgsOf(d) == Some(raw) && raw != ""
    ensures ModelVerdict(m) == match ArgsOf(ArgParts(raw), map[])
      case Err(e) => Err(e)
      case Ok(args) => Ok(HidesModel(args))
  {
  }

  /** The pair loop on the key `hide` and one value text. */
  lemma HideArgsOf(w: string)
    ensures ArgsOf(["hide", w], map[]) == match Parse(w)
      case None => Err(SyntaxError(Some(w)))
      case Some(v) => Ok(map["hide" := v])
  {
    assert ["hide", w][2..] == [];
  }

  // ---------------------------------------------------------------------
  // The verdict

  /**
   * A model documented `@@Gen.model(hide: <w>)` is hidden when `w` is truthy
   * JSON, kept when it is falsy JSON, and makes the scan throw a
   * `SyntaxError` carrying `w` when `w` is not JSON.
   */
  lemma HideDocVerdict(m: Model, w: string)
    requires PlainValue(w) && m.documentation == Some(HideDoc(w))
    ensures ModelVerdict(m) == match Parse(w)
      case None => Err(SyntaxError(Some(w)))
      case Some(v) => Ok(Truthy(v))
  {
    var s := HideDoc(w);
    var raw := "hide: " + w;
    HideDocAttribute(s, w);
    HideDocNameIsModel(s, w);
    HideDocRawArgs(s, w);
    VerdictFromParts(m, s, raw);
    HideDocArgParts(w);
    HideArgsOf(w);
  }

  lemma PlainLiteral(w: string)
    requires w == "true" || w == "false" || w == "yes" || w == "null" || w == "0" || w == "\"\""
    ensures PlainValue(w)
  {
  }

  /** `@@Gen.model(hide: true)` hides the model. */
  lemma HideTrueHidesModel(m: Model)
    requires m.documentation == Some(HideDoc("true"))
    ensures ModelVerdict(m) == Ok(true)
  {
    PlainLiteral("true");
    ParseBooleans();
    HideDocVerdict(m, "true");
  }

  /** `@@Gen.model(hide: false)` keeps the model. */
  lemma HideFalseKeepsModel(m: Model)
    requires m.documentation == Some(HideDoc("false"))
    ensures ModelVerdict(m) == Ok(false)
  {
    PlainLiteral("false");
    ParseBooleans();
    HideDocVerdict(m, "false");
  }

  /** `@@Gen.model(hide: yes)` throws: `yes` is not JSON. */
  lemma HideYesThrows(m: Model)
    requires m.documentation == Some(HideDoc("yes"))
    ensures ModelVerdict(m) == Err(SyntaxError(Some("yes")))
  {
    PlainLiteral("yes");
    ParseRejectsYes();
    HideDocVerdict(m, "yes");
  }

  /** `hide: null`, `hide: 0` and `hide: ""` keep the model: those values are falsy. */
  lemma HideFalsyKeepsModel(m: Model, w: string)
    requires w == "null" || w == "0" || w == "\"\""
    requires m.documentation == Some(HideDoc(w))
    ensures ModelVerdict(m) == Ok(false)
  {
    PlainLiteral(w);
    ParseFalsyLiterals();
    HideDocVerdict(m, w);
  }
}
