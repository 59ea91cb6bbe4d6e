/**
 * Hiding models through their documentation comment: a model whose comment
 * carries `@@Gen.model(hide: <truthy JSON>)` gets no router. The attribute is
 * found with the three expressions of `AttributeScan`, its arguments are cut
 * into key and value parts, every value goes through `JSON.parse`, and the
 * names of hidden models are pushed onto a list the caller owns.
 */
module ModelComments {
  import opened Wrappers
  import opened Strings
  import opened Json
  import opened AttributeScan

  /** The part of a Prisma model the hiding rule reads. */
  datatype Model = Model(name: string, documentation: Option<string>)

  /** The `SyntaxError` `JSON.parse` throws: the text it got, `None` for `undefined`. */
  datatype SyntaxError = SyntaxError(text: Option<string>)

  /** The caller's list of hidden model names, which the scan pushes onto. */
  class NameList {
    var names: seq<string>

    constructor(initial: seq<string>)
      ensures names == initial
    {
      names := initial;
    }

    /** `hiddenModels.push(name)`. */
    method Push(name: string)
      modifies this
      ensures names == old(names) + [name]
    {
      names := names + [name];
    }
  }

  // ---------------------------------------------------------------------
  // Cutting the raw arguments into parts

  /** Every string trimmed. */
  function TrimAll(parts: seq<string>): (r: seq<string>)
    ensures |r| == |parts|
    ensures forall i :: 0 <= i < |parts| ==> r[i] == Trim(parts[i])
  {
    if parts == [] then [] else [Trim(parts[0])] + TrimAll(parts[1..])
  }

  /** One trimmed piece between colons: kept whole when it opens an array, else cut at commas. */
  function CommaPieces(piece: string): (r: seq<string>)
    ensures |r| >= 1
    ensures JoinWith(r, ",") == piece
    ensures StartsWith(piece, "[") ==> r == [piece]
    ensures !StartsWith(piece, "[") ==> forall i :: 0 <= i < |r| ==> ',' !in r[i]
  {
    if StartsWith(piece, "[") then [piece]
    else
      assert [','] == ",";
      JoinSplit(piece, ',');
      Split(piece, ',')
  }

  /** The comma pieces of every colon piece, flattened in order. */
  function FlatCommaPieces(pieces: seq<string>): seq<string>
  {
    if pieces == [] then [] else CommaPieces(pieces[0]) + FlatCommaPieces(pieces[1..])
  }

  /**
   * The parts of the raw argument text: split at ':', trimmed, split at ','
   * unless the piece starts with '[', flattened and trimmed again.
   */
  function ArgParts(raw: string): seq<string>
  {
    TrimAll(FlatCommaPieces(TrimAll(Split(raw, ':'))))
  }

  /** Every argument part is trimmed: trimming it again changes nothing. */
  lemma ArgPartsTrimmed(raw: string)
    ensures forall i :: 0 <= i < |ArgParts(raw)| ==> Trim(ArgParts(raw)[i]) == ArgParts(raw)[i]
  {
    TrimAllTrimmed(FlatCommaPieces(TrimAll(Split(raw, ':'))));
  }

  lemma TrimAllTrimmed(parts: seq<string>)
    ensures forall i :: 0 <= i < |TrimAll(parts)| ==> Trim(TrimAll(parts)[i]) == TrimAll(parts)[i]
  {
    forall i | 0 <= i < |parts|
      ensures Trim(TrimAll(parts)[i]) == TrimAll(parts)[i]
    {
      TrimIdempotent(parts[i]);
    }
  }

  /** A string none of whose characters is `c`. */
  predicate FreeOf(parts: seq<string>, c: char)
  {
    forall i :: 0 <= i < |parts| ==> c !in parts[i]
  }

  lemma {:induction false} TrimAllFreeOf(parts: seq<string>, c: char)
    requires FreeOf(parts, c)
    ensures FreeOf(TrimAll(parts), c)
  {
    forall i | 0 <= i < |parts|
      ensures c !in TrimAll(parts)[i]
    {
      assert TrimAll(parts)[i] == Trim(parts[i]);
    }
  }

  lemma {:induction false} FlatCommaPiecesFreeOf(pieces: seq<string>, c: char)
    requires FreeOf(pieces, c)
    ensures FreeOf(FlatCommaPieces(pieces), c)
    decreases |pieces|
  {
    if pieces != [] {
      FlatCommaPiecesFreeOf(pieces[1..], c);
      var first := CommaPieces(pieces[0]);
      if !StartsWith(pieces[0], "[") {
        SplitChars(pieces[0], ',');
      }
      assert FreeOf(first, c);
      var rest := FlatCommaPieces(pieces[1..]);
      forall i | 0 <= i < |first + rest|
        ensures c !in (first + rest)[i]
      {
        if i >= |first| {
          assert (first + rest)[i] == rest[i - |first|];
        }
      }
    }
  }

  /** No argument part holds a ':' (so no part is a non-empty JSON object or a string with a colon). */
  lemma ArgPartsFreeOfColon(raw: string)
    ensures FreeOf(ArgParts(raw), ':')
  {
    var pieces := TrimAll(Split(raw, ':'));
    TrimAllFreeOf(Split(raw, ':'), ':');
    FlatCommaPiecesFreeOf(pieces, ':');
    TrimAllFreeOf(FlatCommaPieces(pieces), ':');
  }

  /**
   * `key: value` with a plain key and a value that is either free of commas
   * or an array gives exactly the trimmed key and the trimmed value.
   */
  lemma ArgPartsOfPair(key: string, value: string)
    requires ':' !in key && ':' !in value && ',' !in key
    requires !StartsWith(Trim(key), "[")
    requires ',' !in value || StartsWith(Trim(value), "[")
    ensures ArgParts(key + ":" + value) == [Trim(key), Trim(value)]
  {
    SplitPair(key, value);
    TrimAllPair(key, value);
    var k := Trim(key);
    var v := Trim(value);
    CommaPiecesWhole(k);
    CommaPiecesWhole(v);
    FlatCommaPiecesPair(k, v);
    TrimAllPair(k, v);
    TrimIdempotent(key);
    TrimIdempotent(value);
  }

  lemma SplitPair(key: string, value: string)
    requires ':' !in key && ':' !in value
    ensures Split(key + ":" + value, ':') == [key, value]
  {
    SplitAppend(key, ':', value);
    assert key + ":" + value == key + [':'] + value;
    SplitNoSeparator(key, ':');
    SplitNoSeparator(value, ':');
  }

  lemma TrimAllPair(a: string, b: string)
    ensures TrimAll([a, b]) == [Trim(a), Trim(b)]
  {
  }

  /** A piece with no comma, or one that opens an array, stays whole. */
  lemma CommaPiecesWhole(piece: string)
    requires ',' !in piece || StartsWith(piece, "[")
    ensures CommaPieces(piece) == [piece]
  {
    if !StartsWith(piece, "[") {
      SplitNoSeparator(piece, ',');
    }
  }

  lemma FlatCommaPiecesPair(a: string, b: string)
    ensures FlatCommaPieces([a, b]) == CommaPieces(a) + CommaPieces(b)
  {
    assert [a, b][1..] == [b];
    assert [b][1..] == [];
    assert FlatCommaPieces([b]) == CommaPieces(b) + FlatCommaPieces([]);
    assert FlatCommaPieces([a, b]) == CommaPieces(a) + FlatCommaPieces([b]);
  }

  // ---------------------------------------------------------------------
  // Reading the parts pairwise

  /** The key of the `j`-th pair. */
  function Key(parts: seq<string>, j: nat): string
    requires 2 * j < |parts|
  {
    parts[2 * j]
  }

  /** The value text of the `j`-th pair. */
  function Value(parts: seq<string>, j: nat): string
    requires 2 * j + 1 < |parts|
  {
    parts[2 * j + 1]
  }

  /**
   * The arguments object the pair loop builds on top of `acc`: each key gets
   * `JSON.parse` of the part after it, a later key overwrites an earlier one,
   * and a value that does not parse, or is missing after the last key, throws.
   */
  function ArgsOf(parts: seq<string>, acc: map<string, Json>): Result<map<string, Json>, SyntaxError>
    decreases |parts|
  {
    if parts == [] then Ok(acc)
    else if |parts| == 1 then Err(SyntaxError(None))
    else
      match Parse(parts[1])
      case None => Err(SyntaxError(Some(parts[1])))
      case Some(v) => ArgsOf(parts[2..], acc[parts[0] := v])
  }

  /** The pair loop of the source: `JSON.parse` of every second part under the part before it. */
  method ParseAttributeArgs(parts: seq<string>) returns (r: Result<map<string, Json>, SyntaxError>)
    ensures r == ArgsOf(parts, map[])
  {
    var parsed: map<string, Json> := map[];
    var i := 0;
    while i < |parts|
      invariant 0 <= i <= |parts|
      invariant ArgsOf(parts[i..], parsed) == ArgsOf(parts, map[])
      decreases |parts| - i
    {
      if i + 1 == |parts| {
        return Err(SyntaxError(None));
      }
      var value := Parse(parts[i + 1]);
      if value.None? {
        return Err(SyntaxError(Some(parts[i + 1])));
      }
      assert parts[i..][2..] == parts[i + 2..];
      parsed := parsed[parts[i] := value.value];
      i := i + 2;
    }
    assert parts[i..] == [];
    return Ok(parsed);
  }

  /** Every pair's value text is JSON. */
  predicate ValuesParse(parts: seq<string>)
  {
    forall j :: 0 <= j < |parts| / 2 ==> Parse(Value(parts, j)).Some?
  }

  /** The values of the pairs are the first value and the values of the rest. */
  lemma ValuesParseShift(parts: seq<string>)
    requires |parts| >= 2
    ensures ValuesParse(parts) <==> Parse(parts[1]).Some? && ValuesParse(parts[2..])
  {
    PairsShift(parts);
    if Parse(parts[1]).Some? && ValuesParse(parts[2..]) {
      forall j | 0 <= j < |parts| / 2
        ensures Parse(Value(parts, j)).Some?
      {
        if j > 0 {
          assert Value(parts, j) == Value(parts[2..], j - 1);
        }
      }
    }
  }

  /** The pair loop succeeds exactly when the parts pair up and every value parses. */
  lemma {:induction false} ArgsOfOkIff(parts: seq<string>, acc: map<string, Json>)
    ensures ArgsOf(parts, acc).Ok? <==> |parts| % 2 == 0 && ValuesParse(parts)
    decreases |parts|
  {
    if |parts| >= 2 {
      ValuesParseShift(parts);
      PairsShift(parts);
      if Parse(parts[1]).Some? {
        ArgsOfOkIff(parts[2..], acc[parts[0] := Parse(parts[1]).value]);
      }
    }
  }

  /** One round of the pair loop. */
  lemma ArgsOfStep(parts: seq<string>, acc: map<string, Json>)
    requires |parts| >= 2 && Parse(parts[1]).Some?
    ensures ArgsOf(parts, acc) == ArgsOf(parts[2..], acc[parts[0] := Parse(parts[1]).value])
  {
  }

  /** The pairs after the first are the pairs of the rest. */
  lemma PairsShift(parts: seq<string>)
    requires |parts| >= 2
    ensures |parts[2..]| / 2 == |parts| / 2 - 1 && |parts[2..]| % 2 == |parts| % 2
    ensures forall j :: 0 <= j < |parts[2..]| / 2 ==>
      Key(parts[2..], j) == Key(parts, j + 1) && Value(parts[2..], j) == Value(parts, j + 1)
    ensures Key(parts, 0) == parts[0] && Value(parts, 0) == parts[1]
  {
  }

  /** `k` is the key of some pair. */
  predicate NamedByPair(parts: seq<string>, k: string)
  {
    exists j :: 0 <= j < |parts| / 2 && Key(parts, j) == k
  }

  /** The keys of the pairs are the first key and the keys of the rest. */
  lemma NamedByPairShift(parts: seq<string>, k: string)
    requires |parts| >= 2
    ensures NamedByPair(parts, k) <==> parts[0] == k || NamedByPair(parts[2..], k)
  {
    PairsShift(parts);
    if NamedByPair(parts, k) {
      var j :| 0 <= j < |parts| / 2 && Key(parts, j) == k;
      if j > 0 {
        assert Key(parts[2..], j - 1) == k;
      }
    }
    if NamedByPair(parts[2..], k) {
      var j :| 0 <= j < |parts[2..]| / 2 && Key(parts[2..], j) == k;
      assert Key(parts, j + 1) == k;
    }
    if parts[0] == k {
      assert Key(parts, 0) == k;
    }
  }

  /** A successful pair loop has the keys of `acc` and the keys of every pair, and no other. */
  lemma {:induction false} ArgsOfKeys(parts: seq<string>, acc: map<string, Json>)
    requires ArgsOf(parts, acc).Ok?
    ensures forall k :: k in ArgsOf(parts, acc).value <==> k in acc || NamedByPair(parts, k)
    decreases |parts|
  {
    if |parts| >= 2 {
      var acc' := acc[parts[0] := Parse(parts[1]).value];
      ArgsOfStep(parts, acc);
      ArgsOfKeys(parts[2..], acc');
      forall k
        ensures k in ArgsOf(parts, acc).value <==> k in acc || NamedByPair(parts, k)
      {
        NamedByPairShift(parts, k);
      }
    }
  }

  /** Under the key of a pair that no later pair repeats lies the parsed value of that pair: the last one wins. */
  lemma {:induction false} ArgsOfLastValueWins(parts: seq<string>, acc: map<string, Json>, j: nat)
    requires ArgsOf(parts, acc).Ok?
    requires j < |parts| / 2
    requires forall j' :: j < j' < |parts| / 2 ==> Key(parts, j') != Key(parts, j)
    ensures Key(parts, j) in ArgsOf(parts, acc).value
    ensures Some(ArgsOf(parts, acc).value[Key(parts, j)]) == Parse(Value(parts, j))
    decreases |parts|
  {
    var rest := parts[2..];
    var acc' := acc[parts[0] := Parse(parts[1]).value];
    ArgsOfStep(parts, acc);
    PairsShift(parts);
    if j > 0 {
      forall j' | j - 1 < j' < |rest| / 2
        ensures Key(rest, j') != Key(rest, j - 1)
      {
        assert Key(parts, j' + 1) != Key(parts, j);
      }
      ArgsOfLastValueWins(rest, acc', j - 1);
    } else {
      forall j' | 0 <= j' < |rest| / 2
        ensures Key(rest, j') != parts[0]
      {
        assert Key(parts, j' + 1) != Key(parts, 0);
      }
      ArgsOfUntouched(rest, acc', parts[0]);
    }
  }

  /** A key of `acc` that no pair names keeps its value. */
  lemma {:induction false} ArgsOfUntouched(parts: seq<string>, acc: map<string, Json>, k: string)
    requires ArgsOf(parts, acc).Ok?
    requires k in acc && forall j :: 0 <= j < |parts| / 2 ==> Key(parts, j) != k
    ensures k in ArgsOf(parts, acc).value && ArgsOf(parts, acc).value[k] == acc[k]
    decreases |parts|
  {
    if |parts| >= 2 {
      var rest := parts[2..];
      var acc' := acc[parts[0] := Parse(parts[1]).value];
      ArgsOfStep(parts, acc);
      PairsShift(parts);
      assert Key(parts, 0) != k;
      forall j | 0 <= j < |rest| / 2
        ensures Key(rest, j) != k
      {
        assert Key(parts, j + 1) != k;
      }
      ArgsOfUntouched(rest, acc', k);
    }
  }

  // ---------------------------------------------------------------------
  // Whether one model is hidden

  /** `parsedAttributeArgs.hide` is truthy. */
  predicate HidesModel(args: map<string, Json>)
  {
    "hide" in args && Truthy(args["hide"])
  }

  /** `attribute.match(attributeNameRegex)?.[0]?.slice(1, -1)`. */
  function AttributeNameOf(attribute: string): Option<string>
  {
    match Match(AttributeName, attribute)
    case None => None
    case Some(t) => Some(SliceInner(t))
  }

  /** `attribute.match(attributeArgsRegex)?.[0]?.slice(1, -1)`. */
  function RawArgsOf(attribute: string): Option<string>
  {
    match Match(AttributeArgs, attribute)
    case None => None
    case Some(t) => Some(SliceInner(t))
  }

  /**
   * The fate of one model: hidden or not, or the `SyntaxError` that escapes
   * while its arguments are parsed. A model without documentation, without
   * a `@@Gen.` attribute, or whose attribute is not named `model`, is kept.
   */
  function ModelVerdict(m: Model): Result<bool, SyntaxError>
  {
    match m.documentation
    case None => Ok(false)
    case Some(doc) =>
      if doc == "" then Ok(false)
      else
        match Match(ModelAttribute, doc)
        case None => Ok(false)
        case Some(attribute) => AttributeVerdict(attribute)
  }

  /** The fate of a model whose documentation holds `attribute`. */
  function AttributeVerdict(attribute: string): Result<bool, SyntaxError>
  {
    if AttributeNameOf(attribute) != Some("model") then Ok(false)
    else
      match RawArgsOf(attribute)
      case None => Ok(false)
      case Some(raw) =>
        if raw == "" then Ok(false)
        else
          match ArgsOf(ArgParts(raw), map[])
          case Err(e) => Err(e)
          case Ok(args) => Ok(HidesModel(args))
  }


  /** The names a scan of `models` pushes, and the error that ends it early, if one does. */
  datatype ScanOutcome = ScanOutcome(pushed: seq<string>, error: Option<SyntaxError>)

  /** The scan over the models, in order, stopping at the first error; `verdict` decides each model. */
  function HiddenScan(verdict: Model -> Result<bool, SyntaxError>, models: seq<Model>): (r: ScanOutcome)
    ensures |r.pushed| <= |models|
  {
    if models == [] then ScanOutcome([], None)
    else
      match verdict(models[0])
      case Err(e) => ScanOutcome([], Some(e))
      case Ok(hidden) =>
        var rest := HiddenScan(verdict, models[1..]);
        ScanOutcome((if hidden then [models[0].name] else []) + rest.pushed, rest.error)
  }

  /** Scanning a concatenation scans the second part only when the first ends without error. */
  lemma {:induction false} HiddenScanConcat(verdict: Model -> Result<bool, SyntaxError>, xs: seq<Model>, ys: seq<Model>)
    ensures HiddenScan(verdict, xs + ys) ==
      if HiddenScan(verdict, xs).error.Some? then HiddenScan(verdict, xs)
      else ScanOutcome(HiddenScan(verdict, xs).pushed + HiddenScan(verdict, ys).pushed, HiddenScan(verdict, ys).error)
    decreases |xs|
  {
    if xs == [] {
      assert xs + ys == ys;
    } else {
      assert (xs + ys)[0] == xs[0];
      assert (xs + ys)[1..] == xs[1..] + ys;
      HiddenScanConcat(verdict, xs[1..], ys);
    }
  }

  /**
   * `resolveModelsComments`: pushes the name of every hidden model onto
   * `hiddenModels`, in model order. A `SyntaxError` from `JSON.parse` escapes:
   * it is returned, and the names pushed before it stay pushed.
   */
  method ResolveModelsComments(models: seq<Model>, hiddenModels: NameList) returns (thrown: Option<SyntaxError>)
    modifies hiddenModels
    ensures hiddenModels.names == old(hiddenModels.names) + HiddenScan(ModelVerdict, models).pushed
    ensures thrown == HiddenScan(ModelVerdict, models).error
  {
    thrown := ScanModels(models, hiddenModels, ModelVerdict);
  }

  /**
   * The loop of `resolveModelsComments`, over any per-model verdict: the
   * loop's proof needs only the verdict of each model, not how it is reached.
   */
  method ScanModels(models: seq<Model>, hiddenModels: NameList, verdictOf: Model -> Result<bool, SyntaxError>)
    returns (thrown: Option<SyntaxError>)
    modifies hiddenModels
    ensures hiddenModels.names == old(hiddenModels.names) + HiddenScan(verdictOf, models).pushed
    ensures thrown == HiddenScan(verdictOf, models).error
  {
    var k := 0;
    while k < |models|
      invariant 0 <= k <= |models|
      invariant HiddenScan(verdictOf, models[..k]).error == None
      invariant hiddenModels.names == old(hiddenModels.names) + HiddenScan(verdictOf, models[..k]).pushed
    {
      var model := models[k];
      var verdict := verdictOf(model);
      HiddenScanGrow(verdictOf, models, k);
      HiddenScanSingle(verdictOf, model);
      if verdict.Err? {
        HiddenScanStopped(verdictOf, models, k + 1);
        return Some(verdict.error);
      }
      if verdict.value {
        hiddenModels.Push(model.name);
      }
      k := k + 1;
    }
    assert models[..k] == models;
    return None;
  }

  /** The scan of a prefix that ended without error, grown by one model. */
  lemma HiddenScanGrow(verdict: Model -> Result<bool, SyntaxError>, models: seq<Model>, k: nat)
    requires k < |models| && HiddenScan(verdict, models[..k]).error == None
    ensures HiddenScan(verdict, models[..k + 1]) == ScanOutcome(
        HiddenScan(verdict, models[..k]).pushed + HiddenScan(verdict, [models[k]]).pushed,
        HiddenScan(verdict, [models[k]]).error)
  {
    assert models[..k + 1] == models[..k] + [models[k]];
    HiddenScanConcat(verdict, models[..k], [models[k]]);
  }

  /** Once a prefix ends in an error, the rest of the models are not looked at. */
  lemma HiddenScanStopped(verdict: Model -> Result<bool, SyntaxError>, models: seq<Model>, k: nat)
    requires k <= |models| && HiddenScan(verdict, models[..k]).error.Some?
    ensures HiddenScan(verdict, models) == HiddenScan(verdict, models[..k])
  {
    assert models == models[..k] + models[k..];
    HiddenScanConcat(verdict, models[..k], models[k..]);
  }

  lemma HiddenScanSingle(verdict: Model -> Result<bool, SyntaxError>, m: Model)
    ensures HiddenScan(verdict, [m]) == (match verdict(m)
      case Err(e) => ScanOutcome([], Some(e))
      case Ok(hidden) => ScanOutcome(if hidden then [m.name] else [], None))
  {
    assert [m][1..] == [];
  }

  // ---------------------------------------------------------------------
  // Properties of the scan

  /**
   * The scan ends without error exactly when no model's arguments throw;
   * then it pushes the names of the hidden models, in order, and nothing else.
   */
  lemma {:induction false} HiddenScanPushesHidden(verdict: Model -> Result<bool, SyntaxError>, models: seq<Model>)
    ensures HiddenScan(verdict, models).error == None <==> forall i :: 0 <= i < |models| ==> verdict(models[i]).Ok?
    ensures HiddenScan(verdict, models).error == None ==>
      forall n :: n in HiddenScan(verdict, models).pushed <==>
        exists i :: 0 <= i < |models| && verdict(models[i]) == Ok(true) && models[i].name == n
    decreases |models|
  {
    if models != [] {
      HiddenScanPushesHidden(verdict, models[1..]);
      var rest := models[1..];
      forall i | 0 <= i < |rest|
        ensures rest[i] == models[i + 1]
      {
      }
      if verdict(models[0]).Ok? && HiddenScan(verdict, models).error == None {
        forall n
          ensures n in HiddenScan(verdict, models).pushed <==>
            exists i :: 0 <= i < |models| && verdict(models[i]) == Ok(true) && models[i].name == n
        {
          if exists i :: 0 <= i < |models| && verdict(models[i]) == Ok(true) && models[i].name == n {
            var i :| 0 <= i < |models| && verdict(models[i]) == Ok(true) && models[i].name == n;
            if i > 0 {
              assert verdict(rest[i - 1]) == Ok(true) && rest[i - 1].name == n;
            }
          }
          if exists i :: 0 <= i < |rest| && verdict(rest[i]) == Ok(true) && rest[i].name == n {
            var i :| 0 <= i < |rest| && verdict(rest[i]) == Ok(true) && rest[i].name == n;
            assert models[i + 1] == rest[i];
          }
        }
      }
      if forall i :: 0 <= i < |rest| ==> verdict(rest[i]).Ok? {
        if verdict(models[0]).Ok? {
          forall i | 0 <= i < |models|
            ensures verdict(models[i]).Ok?
          {
            if i > 0 {
              assert models[i] == rest[i - 1];
            }
          }
        }
      } else {
        var i :| 0 <= i < |rest| && !verdict(rest[i]).Ok?;
        assert models[i + 1] == rest[i];
      }
    }
  }

  /** The scan stops at the first model whose arguments throw, with that model's error. */
  lemma {:induction false} HiddenScanStopsAtFirstError(verdict: Model -> Result<bool, SyntaxError>, models: seq<Model>, i: nat)
    requires i < |models| && verdict(models[i]).Err?
    requires forall j :: 0 <= j < i ==> verdict(models[j]).Ok?
    ensures HiddenScan(verdict, models).error == Some(verdict(models[i]).error)
    ensures HiddenScan(verdict, models).pushed == HiddenScan(verdict, models[..i]).pushed
  {
    assert models == models[..i] + models[i..];
    HiddenScanConcat(verdict, models[..i], models[i..]);
    HiddenScanPushesHidden(verdict, models[..i]);
    assert forall j :: 0 <= j < i ==> models[..i][j] == models[j];
    assert models[i..][0] == models[i];
  }

  /** A model whose documentation holds no `@@Gen.` is never hidden. */
  lemma NoGenAttributeKeepsModel(m: Model)
    requires m.documentation.Some?
    requires forall p :: 0 <= p <= |m.documentation.value| ==> !OccursAt(m.documentation.value, GenPrefix, p)
    ensures ModelVerdict(m) == Ok(false)
  {
    assert Match(ModelAttribute, m.documentation.value) == None;
  }
  /** An attribute whose name reads `model` holds ".model(". */
  lemma ModelNameOccurs(attribute: string) returns (p: nat)
    requires AttributeNameOf(attribute) == Some("model")
    ensures OccursAt(attribute, ".model(", p)
  {
    var t := Match(AttributeName, attribute).value;
    p := MatchOccurs(AttributeName, attribute);
    AttributeNameWordEnds(t);
    assert t == [t[0]] + SliceInner(t) + [t[|t| - 1]];
    assert t == ".model(";
  }

  /** An attribute without ".model(" is not named `model`. */
  lemma NameNotModel(attribute: string)
    requires forall q: nat :: !OccursAt(attribute, ".model(", q)
    ensures AttributeNameOf(attribute) != Some("model")
  {
    if AttributeNameOf(attribute) == Some("model") {
      var p := ModelNameOccurs(attribute);
    }
  }

  /** A model whose documentation holds no ".model(" is never hidden: other attributes are skipped. */
  lemma OtherAttributeKeepsModel(m: Model)
    requires m.documentation.Some?
    requires forall q: nat :: !OccursAt(m.documentation.value, ".model(", q)
    ensures ModelVerdict(m) == Ok(false)
  {
    var doc := m.documentation.value;
    if doc != "" && Match(ModelAttribute, doc).Some? {
      var attribute := Match(ModelAttribute, doc).value;
      var p := MatchOccurs(ModelAttribute, doc);
      AbsentWithin(doc, attribute, p, ".model(");
      NameNotModel(attribute);
    }
  }

  /**
   * Some pair of `parts` has the key `hide`, no later pair repeats that key,
   * and its value parses to a truthy JSON value.
   */
  ghost predicate LastHideTruthy(parts: seq<string>)
  {
    exists j :: 0 <= j < |parts| / 2 && Key(parts, j) == "hide"
      && (forall j' :: j < j' < |parts| / 2 ==> Key(parts, j') != "hide")
      && Parse(Value(parts, j)).Some? && Truthy(Parse(Value(parts, j)).value)
  }

  /** The last pair below `n` whose key is `k`, when one exists. */
  lemma {:induction false} LastKeyBelow(parts: seq<string>, k: string, n: nat) returns (j: nat)
    requires n <= |parts| / 2
    requires exists j0 :: 0 <= j0 < n && Key(parts, j0) == k
    ensures j < n && Key(parts, j) == k
    ensures forall j' :: j < j' < n ==> Key(parts, j') != k
    decreases n
  {
    if Key(parts, n - 1) == k {
      j := n - 1;
    } else {
      var j0 :| 0 <= j0 < n && Key(parts, j0) == k;
      assert j0 < n - 1;
      j := LastKeyBelow(parts, k, n - 1);
    }
  }

  /** The attribute a hidden model's documentation holds, and where. */
  lemma HiddenAttribute(m: Model) returns (attribute: string, p: nat)
    requires ModelVerdict(m) == Ok(true)
    ensures m.documentation.Some? && OccursAt(m.documentation.value, attribute, p)
    ensures OccursAt(attribute, GenPrefix, 0) && AttributeVerdict(attribute) == Ok(true)
  {
    var doc := m.documentation.value;
    attribute := Match(ModelAttribute, doc).value;
    p := MatchOccurs(ModelAttribute, doc);
    ModelAttributeWordStart(attribute);
  }

  /** The argument text of an attribute that hides its model, and where it lies. */
  lemma HidingArgs(attribute: string) returns (raw: string, p: nat)
    requires AttributeVerdict(attribute) == Ok(true)
    ensures OccursAt(attribute, raw, p)
    ensures ArgsOf(ArgParts(raw), map[]).Ok? && HidesModel(ArgsOf(ArgParts(raw), map[]).value)
  {
    var t := Match(AttributeArgs, attribute).value;
    var q := MatchOccurs(AttributeArgs, attribute);
    AttributeArgsWordEnds(t);
    raw := SliceInner(t);
    assert OccursAt(t, raw, 1);
    OccursWithin(attribute, t, q, raw, 1);
    p := q + 1;
  }

  /** Arguments that hide the model come from parts whose last `hide` pair is truthy. */
  lemma HidingParts(parts: seq<string>)
    requires ArgsOf(parts, map[]).Ok? && HidesModel(ArgsOf(parts, map[]).value)
    ensures LastHideTruthy(parts)
  {
    ArgsOfKeys(parts, map[]);
    assert NamedByPair(parts, "hide");
    var j := LastKeyBelow(parts, "hide", |parts| / 2);
    ArgsOfLastValueWins(parts, map[], j);
  }

  /**
   * A hidden model's documentation holds "@@Gen." and ".model(", and an
   * argument text whose last `hide` pair carries a truthy value.
   */
  lemma HiddenModelCarriesHide(m: Model)
    requires ModelVerdict(m) == Ok(true)
    ensures m.documentation.Some?
    ensures exists p: nat :: OccursAt(m.documentation.value, GenPrefix, p)
    ensures exists p: nat :: OccursAt(m.documentation.value, ".model(", p)
    ensures exists raw: string, p: nat :: OccursAt(m.documentation.value, raw, p) && LastHideTruthy(ArgParts(raw))
  {
    var doc := m.documentation.value;
    var attribute, p0 := HiddenAttribute(m);
    OccursWithin(doc, attribute, p0, GenPrefix, 0);
    var p1 := ModelNameOccurs(attribute);
    OccursWithin(doc, attribute, p0, ".model(", p1);
    var raw, p2 := HidingArgs(attribute);
    OccursWithin(doc, attribute, p0, raw, p2);
    HidingParts(ArgParts(raw));
  }
}
