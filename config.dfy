/**
 * Validation of the generator options (the zod `configSchema`): every option
 * arrives as a string, booleans are the words "true" and "false", absent
 * options take their defaults, and `generateModelActions` is a
 * comma-separated list of model actions.
 */
module GeneratorConfig {
  import opened Wrappers
  import opened Strings

  /** `withMiddleware`: a boolean flag or the path of a middleware module. */
  datatype MiddlewareOption = Flag(enabled: bool) | ModulePath(path: string)

  /** The validated options. */
  datatype Config = Config(
    withMiddleware: MiddlewareOption,
    withShield: bool,
    withZod: bool,
    contextPath: string,
    trpcOptionsPath: Option<string>,
    showModelNameInProcedure: bool,
    generateModelActions: seq<string>)

  /**
   * Why validation failed: boolean options holding other words (listed in
   * schema order), or the first `generateModelActions` token that is not a
   * model action; that one is thrown from inside the transform and so
   * replaces every other issue.
   */
  datatype ConfigError =
    | InvalidOptions(keys: seq<string>)
    | InvalidModelAction(token: string)

  const DefaultContextPath: string := "../../../../src/context"

  /** The boolean options, in schema order. */
  const BooleanKeys: seq<string> := ["withShield", "withZod", "showModelNameInProcedure"]

  /** `configBoolean`: only the two words are accepted. */
  function ConfigBoolean(s: string): (r: Option<bool>)
    ensures r.Some? <==> s == "true" || s == "false"
    ensures r == Some(true) <==> s == "true"
  {
    if s == "true" then Some(true)
    else if s == "false" then Some(false)
    else None
  }

  /** The value of option `key`, or `default` when it is absent (zod's `.default`). */
  function OptionOr(options: map<string, string>, key: string, default: string): string
  {
    if key in options then options[key] else default
  }

  /** A boolean option with zod's default of 'true'. */
  function BooleanOption(options: map<string, string>, key: string): (r: Option<bool>)
    ensures key !in options ==> r == Some(true)
    ensures key in options ==> r == ConfigBoolean(options[key])
  {
    ConfigBoolean(OptionOr(options, key, "true"))
  }

  /** `configStringOrBoolean`: the union tries the boolean words first, then keeps any string. */
  function MiddlewareOptionOf(s: string): (r: MiddlewareOption)
    ensures r == Flag(true) <==> s == "true"
    ensures r == Flag(false) <==> s == "false"
    ensures r.ModulePath? <==> s != "true" && s != "false"
    ensures r.ModulePath? ==> r.path == s
  {
    match ConfigBoolean(s)
    case Some(b) => Flag(b)
    case None => ModulePath(s)
  }

  /** JavaScript truthiness of `config.withMiddleware`: a path counts unless it is empty. */
  predicate MiddlewareEnabled(m: MiddlewareOption)
  {
    match m
    case Flag(b) => b
    case ModulePath(p) => p != ""
  }

  /**
   * `split(',').map(action => modelActionEnum.parse(action.trim()))` over the
   * given tokens: the trimmed tokens if all are model actions, otherwise the
   * first trimmed token that is not.
   */
  function ParseActionTokens(tokens: seq<string>, actions: seq<string>): (r: Result<seq<string>, string>)
    ensures r.Ok? ==> |r.value| == |tokens|
    ensures r.Ok? ==> forall i :: 0 <= i < |tokens| ==> r.value[i] == Trim(tokens[i]) && r.value[i] in actions
    ensures r.Err? ==> r.error !in actions
  {
    if |tokens| == 0 then Ok([])
    else
      var action := Trim(tokens[0]);
      if action !in actions then Err(action)
      else
        match ParseActionTokens(tokens[1..], actions)
        case Err(bad) => Err(bad)
        case Ok(rest) =>
          TrimmedCons(tokens, actions, rest);
          Ok([action] + rest)
  }

  /** The trimmed first token in front of the trimmed rest gives the trimmed tokens. */
  lemma TrimmedCons(tokens: seq<string>, actions: seq<string>, rest: seq<string>)
    requires |tokens| > 0 && Trim(tokens[0]) in actions
    requires |rest| == |tokens| - 1
    requires forall i :: 0 <= i < |rest| ==> rest[i] == Trim(tokens[1..][i]) && rest[i] in actions
    ensures forall i :: 0 <= i < |tokens| ==>
      ([Trim(tokens[0])] + rest)[i] == Trim(tokens[i]) && ([Trim(tokens[0])] + rest)[i] in actions
  {
    forall i | 0 < i < |tokens|
      ensures ([Trim(tokens[0])] + rest)[i] == Trim(tokens[i])
    {
      assert tokens[1..][i - 1] == tokens[i];
    }
  }

  /** The `generateModelActions` transform applied to the option's string. */
  function ParseModelActions(s: string, actions: seq<string>): (r: Result<seq<string>, string>)
    ensures r.Ok? ==> |r.value| >= 1
    ensures r.Ok? ==> |r.value| == |Split(s, ',')|
    ensures r.Ok? ==> forall i :: 0 <= i < |r.value| ==> r.value[i] == Trim(Split(s, ',')[i]) && r.value[i] in actions
  {
    ParseActionTokens(Split(s, ','), actions)
  }

  /** Parsing fails exactly when some trimmed token is not a model action. */
  lemma {:induction false} ActionTokensAcceptedIff(tokens: seq<string>, actions: seq<string>)
    ensures ParseActionTokens(tokens, actions).Ok? <==> forall i :: 0 <= i < |tokens| ==> Trim(tokens[i]) in actions
  {
    if |tokens| > 0 {
      ActionTokensAcceptedIff(tokens[1..], actions);
      assert forall i :: 1 <= i < |tokens| ==> tokens[i] == tokens[1..][i - 1];
    }
  }

  /** The error names the first trimmed token that is not a model action. */
  lemma ActionTokensFirstError(tokens: seq<string>, actions: seq<string>)
    requires ParseActionTokens(tokens, actions).Err?
    ensures exists i :: 0 <= i < |tokens| && ParseActionTokens(tokens, actions).error == Trim(tokens[i])
                        && forall j :: 0 <= j < i ==> Trim(tokens[j]) in actions
  {
    var i := FirstRejectedToken(tokens, actions);
  }

  /** The position of the token the error names. */
  lemma {:induction false} FirstRejectedToken(tokens: seq<string>, actions: seq<string>) returns (i: nat)
    requires ParseActionTokens(tokens, actions).Err?
    ensures i < |tokens| && ParseActionTokens(tokens, actions).error == Trim(tokens[i])
    ensures forall j :: 0 <= j < i ==> Trim(tokens[j]) in actions
  {
    if Trim(tokens[0]) in actions {
      var k := FirstRejectedToken(tokens[1..], actions);
      i := k + 1;
      forall j | 0 <= j < i
        ensures Trim(tokens[j]) in actions
      {
        if j > 0 {
          assert tokens[j] == tokens[1..][j - 1];
        }
      }
    } else {
      i := 0;
    }
  }

  /** Members of the enumeration are accepted as they are, in order. */
  lemma {:induction false} ActionTokensOfMembers(tokens: seq<string>, actions: seq<string>)
    requires forall i :: 0 <= i < |tokens| ==> tokens[i] in actions && Trim(tokens[i]) == tokens[i]
    ensures ParseActionTokens(tokens, actions) == Ok(tokens)
  {
    if |tokens| > 0 {
      var rest := tokens[1..];
      forall i | 0 <= i < |rest|
        ensures rest[i] in actions && Trim(rest[i]) == rest[i]
      {
        assert rest[i] == tokens[i + 1];
      }
      ActionTokensOfMembers(rest, actions);
      assert Trim(tokens[0]) == tokens[0] && tokens[0] in actions;
      assert ParseActionTokens(tokens, actions) == Ok([tokens[0]] + rest);
      assert [tokens[0]] + rest == tokens;
    }
  }

  /** The default, the enumeration joined with ',', parses back to the whole enumeration in order. */
  lemma DefaultModelActions(actions: seq<string>)
    requires WellFormedActions(actions)
    ensures ParseModelActions(JoinWith(actions, ","), actions) == Ok(actions)
  {
    SplitJoin(actions, ',');
    forall i | 0 <= i < |actions| ensures Trim(actions[i]) == actions[i] {
      TrimUntrimmed(actions[i]);
    }
    ActionTokensOfMembers(actions, actions);
  }

  /** An empty token (from an empty option or a stray comma) is never a model action. */
  lemma EmptyTokenRejected(s: string, actions: seq<string>)
    requires WellFormedActions(actions)
    requires exists i :: 0 <= i < |Split(s, ',')| && Trim(Split(s, ',')[i]) == ""
    ensures ParseModelActions(s, actions).Err?
  {
    ActionTokensAcceptedIff(Split(s, ','), actions);
  }

  /**
   * The members of the model-action enumeration: distinct, non-empty, free of
   * ',' and of white space at either end (Prisma's action names are).
   */
  predicate WellFormedActions(actions: seq<string>)
  {
    && |actions| >= 1
    && (forall i, j :: 0 <= i < j < |actions| ==> actions[i] != actions[j])
    && forall i :: 0 <= i < |actions| ==>
         actions[i] != "" && ',' !in actions[i]
         && !IsJsWhitespace(actions[i][0]) && !IsJsWhitespace(actions[i][|actions[i]| - 1])
  }

  /** The boolean options present with a value other than the two words, in schema order. */
  function KeysWithoutBoolean(options: map<string, string>, keys: seq<string>): (r: seq<string>)
    ensures forall k :: k in r <==> k in keys && BooleanOption(options, k).None?
  {
    if |keys| == 0 then []
    else
      (if BooleanOption(options, keys[0]).None? then [keys[0]] else [])
      + KeysWithoutBoolean(options, keys[1..])
  }

  /**
   * `configSchema.parse(options)`, given the members of `DMMF.ModelAction` in
   * enumeration order. Options outside the schema are dropped.
   */
  function ParseConfig(options: map<string, string>, actions: seq<string>): (r: Result<Config, ConfigError>)
    ensures r.Ok? ==> |r.value.generateModelActions| >= 1
    ensures r.Ok? ==> forall a :: a in r.value.generateModelActions ==> a in actions
    ensures r.Err? && r.error.InvalidModelAction? ==> r.error.token !in actions
    ensures r.Err? && r.error.InvalidOptions? ==> |r.error.keys| >= 1
    ensures r.Err? && r.error.InvalidOptions? ==> forall k :: k in r.error.keys ==>
      k in BooleanKeys && k in options && options[k] != "true" && options[k] != "false"
  {
    var actionText := OptionOr(options, "generateModelActions", JoinWith(actions, ","));
    match ParseModelActions(actionText, actions)
    case Err(token) => Err(InvalidModelAction(token))
    case Ok(modelActions) =>
      var invalid := KeysWithoutBoolean(options, BooleanKeys);
      if invalid != [] then Err(InvalidOptions(invalid))
      else
        Ok(Config(
          MiddlewareOptionOf(OptionOr(options, "withMiddleware", "true")),
          BooleanOption(options, "withShield").value,
          BooleanOption(options, "withZod").value,
          OptionOr(options, "contextPath", DefaultContextPath),
          if "trpcOptionsPath" in options then Some(options["trpcOptionsPath"]) else None,
          BooleanOption(options, "showModelNameInProcedure").value,
          modelActions))
  }

  /** Validation succeeds exactly when every boolean option is a boolean word and every action token is valid. */
  lemma ParseConfigSucceedsIff(options: map<string, string>, actions: seq<string>)
    ensures ParseConfig(options, actions).Ok? <==>
      && (forall k :: k in BooleanKeys && k in options ==> options[k] == "true" || options[k] == "false")
      && ParseModelActions(OptionOr(options, "generateModelActions", JoinWith(actions, ",")), actions).Ok?
  {
    var invalid := KeysWithoutBoolean(options, BooleanKeys);
    if invalid != [] {
      assert invalid[0] in invalid;
    }
  }

  /** What each field of a validated configuration holds, defaults included. */
  lemma ParseConfigFields(options: map<string, string>, actions: seq<string>, c: Config)
    requires ParseConfig(options, actions) == Ok(c)
    ensures c.withShield <==> "withShield" !in options || options["withShield"] == "true"
    ensures c.withZod <==> "withZod" !in options || options["withZod"] == "true"
    ensures c.showModelNameInProcedure <==> "showModelNameInProcedure" !in options || options["showModelNameInProcedure"] == "true"
    ensures "withMiddleware" !in options ==> c.withMiddleware == Flag(true)
    ensures "withMiddleware" in options ==> c.withMiddleware == MiddlewareOptionOf(options["withMiddleware"])
    ensures c.contextPath == if "contextPath" in options then options["contextPath"] else DefaultContextPath
    ensures c.trpcOptionsPath == if "trpcOptionsPath" in options then Some(options["trpcOptionsPath"]) else None
    ensures "generateModelActions" in options ==>
      c.generateModelActions == ParseModelActions(options["generateModelActions"], actions).value
    ensures |c.generateModelActions| >= 1
  {
    var actionText := OptionOr(options, "generateModelActions", JoinWith(actions, ","));
    var parsed := ParseModelActions(actionText, actions);
    assert parsed.Ok?;
    var invalid := KeysWithoutBoolean(options, BooleanKeys);
    assert invalid == [];
    assert "withShield" in BooleanKeys && "withZod" in BooleanKeys && "showModelNameInProcedure" in BooleanKeys;
    assert c.generateModelActions == parsed.value;
  }

  /** With no options at all, every default applies and every model action is generated. */
  lemma ParseConfigDefaults(actions: seq<string>)
    requires WellFormedActions(actions)
    ensures ParseConfig(map[], actions) == Ok(Config(Flag(true), true, true, DefaultContextPath, None, true, actions))
  {
    DefaultModelActions(actions);
    assert KeysWithoutBoolean(map[], BooleanKeys) == [];
  }
}
