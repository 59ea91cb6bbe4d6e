# prisma-trpc-generator core, modelled in Dafny

prisma-trpc-generator is a Prisma generator. It emits tRPC routers for the models of a Prisma
schema. This project models its core:

- `src/helpers.ts`:
  - classifying a Prisma operation as a query or a mutation;
  - naming an operation's zod input validator;
  - the import declarations a generated router needs;
  - the base router with its middleware chain;
  - one procedure definition;
  - the per-model block of validator imports;
  - hiding models through a `@@Gen.model(hide: …)` documentation attribute.
- `src/config.ts`: validation of the generator options by the zod `configSchema`.
- `src/utils/getRelativePath.ts`: the import path from the generated `routers/helpers` directory to
  a user module. Node's POSIX `path` module is modelled over segment lists.

Modules, one per file:

| module | file | models |
|---|---|---|
| `Wrappers` | wrappers.dfy | `Option` / `Result` |
| `Strings` | strings.dfy | JavaScript `split`, `join`, `trim`, `replace`, first-letter case change |
| `Json` | json.dfy | the part of `JSON.parse` that attribute values go through, plus JavaScript truthiness |
| `SourceFiles` | source_file.dfy | the ts-morph `SourceFile` as a class whose statement list grows |
| `GeneratorConfig` | config.dfy | `configSchema` |
| `Helpers` | helpers.dfy | the emitters and classifiers of `helpers.ts` |
| `AttributeScan` | attribute_scan.dfy | the three regular expressions of `resolveModelsComments`, as scanners |
| `ModelComments` | model_comments.dfy | `resolveModelsComments` |
| `ModelCommentExamples` | model_comment_examples.dfy | the verdict on a `@@Gen.model(hide: <value>)` comment, with its true, false, falsy and non-JSON cases |
| `Paths` | paths.dfy | `path.join`, `normalize`, `resolve` and `relative` (POSIX) |
| `RelativePath` | relative_path.dfy | `getRelativePath` |

Design:

- **State.** The code that changes state is imperative Dafny:
  - ts-morph's `SourceFile` is a class, and the emitters are methods that append to its
    statement list;
  - the caller's `hiddenModels` array is the class `NameList`, which the scan pushes onto;
  - the loop over the attribute's key/value parts, the loop over the models, and the
    `middlewares` array of `generateBaseRouter` are `while` loops or step-by-step methods.
  Each method is proved against a specification function (`ArgsOf`, `HiddenScan`,
  `ModelVerdict`, `MiddlewareTexts`, `SchemaImportLines`, …). The lemmas beside those functions
  state what the source promises.
- **Regular expressions.** Each of the three is modelled in two ways:
  - as the language it denotes (`InLanguage`);
  - as a scanner that returns the match a backtracking JavaScript engine returns.
  `MatchIsLeftmostLongest` proves the scanner returns the leftmost match, and the longest one at
  that start. That is the match JavaScript returns here, for three reasons.
  - **Runs that are never shortened.** Backtracking never shortens these runs, because each is
    followed by a character its class excludes:
    - `(@@Gen\.)+` and `[A-z]+`;
    - both `[A-Za-z]+`;
    - the name expression's `\.+`;
    - the argument expression's leading `\(+`.

    The name expression's final `\(+` ends the expression, so nothing after it can force it
    back either.
  - **Runs that may be shortened.** The model expression's `(\()+` and the argument
    expression's `\:+` are followed by `(.+)+`, whose `.` admits their own character.
    Backtracking may therefore shorten either run to a single character. `CloseEnd` covers this
    by searching for `)` from the position after that one character and the first character of
    `.+` onwards (its `b + 2` lower bound). `ArgsColonRunShortened` (`(a::)`) and
    `ModelParenRunShortened` (`@@Gen.m(()`) are two matches that need the shorter run.
  - **The tail.** The tail `(.+)+(\))+` starts by taking the rest of the line and backtracks to
    the last `)` on that line, so it ends just after that `)`.
- **Behaviour the code fixes.**
  - **A `JSON.parse` failure escapes.** The loop over the attribute arguments has no `try`, so a
    value that is not JSON throws a `SyntaxError` out of `resolveModelsComments`. The names
    already pushed stay pushed.
  - **`withMiddleware` enables logging.** Any truthy value, a module path included, pushes the
    logging middleware.
  - **No `OrThrow` variants.** An operation name outside the fourteen listed (such as
    `findUniqueOrThrow`) has no procedure type and no input type. The router method then
    interpolates to `undefined`.
  - **`createProtectedRouter`.** The protected router is a factory function of that name, not a
    `shieldedProcedure`.
  - **`[A-z]` is wider than the letters.** It also admits `[`, `\`, `]`, `^`, `_` and `` ` ``. So
    `@@Gen.m_(x.model(hide: true)` hides its model although it does not contain `@@Gen.model(`:
    the name expression finds `.model(` further on. `HiddenModelCarriesHide` therefore states
    that a hidden model's comment holds `@@Gen.` and `.model(`, not `@@Gen.model(`.

## Model

| member | source | states |
|---|---|---|
| Helpers.ProcedureTypeByOpName | src/helpers.ts:186-211 | the result is `query` exactly for the seven read operations, `mutation` exactly for the seven writing ones, and nothing (undefined) exactly for every other name |
| Helpers.InputTypeByOpName | src/helpers.ts:135-184 | a validator name is returned exactly for the fourteen known operations (undefined otherwise), and it starts with the model name |
| Helpers.InputTypeFollowsNamingRule | src/helpers.ts:135-184 | for every known operation, the validator is `<Model><Operation capitalised>Schema`; `upsertOne` drops its `One`; the raw operations name an `…ObjectSchema` |
| Helpers.QueryInputTypesFollowNamingRule | src/helpers.ts:137-149 | the naming rule holds for every query operation |
| Helpers.MutationInputTypesFollowNamingRule | src/helpers.ts:150-179 | the naming rule holds for every mutation operation |
| Helpers.ValidatorNameEndsWithSchema | src/helpers.ts:135-184 | every validator name the rule produces ends in `Schema` |
| SourceFiles.SourceFile.AddImportDeclaration | src/helpers.ts:10-15 | the declaration is appended to the statements and nothing else changes |
| SourceFiles.SourceFile.AddStatements | src/helpers.ts:47 | the statement text is appended to the statements and nothing else changes |
| Helpers.GenerateCreateRouterImport | src/helpers.ts:6-16 | exactly one import of `createProtectedRouter` or `createRouter` from `./helpers/createRouter` is appended, chosen by the flag |
| Helpers.GenerateTrpcImport | src/helpers.ts:18-23 | exactly one namespace import `trpc` of `@trpc/server` is appended |
| Helpers.GenerateShieldImport | src/helpers.ts:25-33 | exactly one import of `permissions` from `<shieldOutputPath>/shield` is appended |
| Helpers.GenerateRouterImport | src/helpers.ts:35-44 | exactly one import of `<plural>Router` from `./<camelCase>.router` is appended |
| Helpers.Middlewares | src/helpers.ts:54-66 | the chain holds logging exactly when `withMiddleware` is truthy and permissions exactly when `withShield` is set; logging always comes before permissions |
| Helpers.MiddlewareTexts | src/helpers.ts:54-66 | the chain's texts, one per middleware, in chain order |
| Helpers.MiddlewareTextsOfConfig | src/helpers.ts:54-66 | the chain's texts are the optional logging text followed by the optional permissions text |
| Helpers.CollectMiddlewares | src/helpers.ts:54-66 | the two conditional pushes build exactly the texts of the configured chain |
| Helpers.GenerateBaseRouter | src/helpers.ts:46-74 | two statements are appended: the `createRouter` factory importing `Context` from `contextPath`, then `createProtectedRouter` applying the chain joined by `\r`; the second is emitted even when the chain is empty |
| Helpers.ProcedureOf | src/helpers.ts:84-93 | the router method is `query`/`mutation` exactly as the base operation classifies; the delegate is the model name with its first letter lower-cased; the delegate method is `opType` with its first `One` removed, and unchanged when there is none |
| Helpers.GenerateProcedure | src/helpers.ts:76-94 | exactly one procedure definition, rendered from `ProcedureOf`, is appended |
| Helpers.DelegateMethodExamples | src/helpers.ts:88-90 | `createOne` calls `create`, `upsertOne` calls `upsert`, `findMany` keeps its name, and model `User` is reached as `ctx.prisma.user` |
| Helpers.ImportedOperations | src/helpers.ts:102-130 | every operation whose validator a model router imports is a known operation |
| Helpers.ImportLines | src/helpers.ts:102-130 | one import line per operation, in order |
| Helpers.ImportLinesAppend | src/helpers.ts:115-129 | the import lines of a concatenation are the concatenation of the import lines (the `concat` steps) |
| Helpers.LeadingImportLines | src/helpers.ts:102-107 | the first four imports: `findUnique`, `findFirst`, `findMany`, `createOne`, with their module paths |
| Helpers.CreateManyImportLines | src/helpers.ts:109-113 | the `createMany` import and its module path |
| Helpers.SingleUpdateImportLines | src/helpers.ts:116-117 | the `deleteOne` and `updateOne` imports |
| Helpers.ManyUpdateImportLines | src/helpers.ts:118-119 | the `deleteMany` and `updateMany` imports |
| Helpers.UpdateImportLines | src/helpers.ts:116-119 | the four delete/update imports, in order |
| Helpers.AggregateImportLines | src/helpers.ts:120-122 | the `upsertOne` (`UpsertSchema`), `aggregate` and `groupBy` imports |
| Helpers.TrailingImportLines | src/helpers.ts:115-123 | the seven imports that follow `createMany`, in order |
| Helpers.RawImportLines | src/helpers.ts:125-130 | the MongoDB imports of the two `…RawObjectSchema` validators from `../schemas/objects/` |
| Helpers.SchemaImportSegments | src/helpers.ts:102-130 | the whole import block, segment by segment: the four leading lines, `createMany` only when the provider has it, the seven trailing lines, then the two raw lines only for `mongodb` |
| Helpers.ImportedOperationsIff | src/helpers.ts:102-130 | an operation is imported exactly when it is known, and it is not `createMany` without `hasCreateMany`, and it is not a raw operation outside MongoDB |
| Helpers.ImportedOperationsDistinct | src/helpers.ts:102-130 | there are no duplicate imports, and there are 11 + (1 with `createMany`) + (2 for MongoDB) of them |
| Helpers.SchemaImportsNameValidators | src/helpers.ts:102-184 | every import line names the validator `getInputTypeByOpName` gives for its operation: the import block and the procedures agree |
| Helpers.GenerateRouterSchemaImports | src/helpers.ts:96-133 | built by pushes and concats as the source does, exactly one statement is appended: the import block joined by `\n` |
| GeneratorConfig.ConfigBoolean | src/config.ts:4-6 | only `"true"` and `"false"` are accepted, and they parse to the matching boolean |
| GeneratorConfig.BooleanOption | src/config.ts:14-18 | an absent boolean option defaults to true; a present one must be a boolean word |
| GeneratorConfig.MiddlewareOptionOf | src/config.ts:8 | `withMiddleware` is the flag for the two boolean words and otherwise the module path as written |
| GeneratorConfig.ParseActionTokens | src/config.ts:22-26 | on success, each token is trimmed and is a model action, one per token; on failure, the offending trimmed token is not an action |
| GeneratorConfig.ParseModelActions | src/config.ts:19-26 | a parsed action list is non-empty, has one entry per comma piece, and each entry is that piece trimmed and is a model action |
| GeneratorConfig.ActionTokensAcceptedIff | src/config.ts:22-26 | parsing succeeds exactly when every trimmed token is a model action |
| GeneratorConfig.ActionTokensFirstError | src/config.ts:22-26 | the error names the first rejected token: every earlier token is accepted |
| GeneratorConfig.FirstRejectedToken | src/config.ts:22-26 | it finds the index of that first rejected token |
| GeneratorConfig.ActionTokensOfMembers | src/config.ts:22-26 | a list of already-trimmed model actions parses to itself |
| GeneratorConfig.DefaultModelActions | src/config.ts:19-21 | the default, every model action joined by `,`, parses back to every model action in order |
| GeneratorConfig.EmptyTokenRejected | src/config.ts:22-26 | an empty or blank token (a trailing comma, say) fails validation |
| GeneratorConfig.KeysWithoutBoolean | src/config.ts:14-18 | it lists exactly the boolean options that are present with a value other than a boolean word |
| GeneratorConfig.ParseConfig | src/config.ts:12-27 | a validated configuration has at least one model action, all members of the enumeration; a rejected action token is not a member; the options reported invalid are boolean options present with some other word |
| GeneratorConfig.ParseConfigSucceedsIff | src/config.ts:12-27 | validation succeeds exactly when every present boolean option is a boolean word and every action token is valid |
| GeneratorConfig.ParseConfigFields | src/config.ts:12-27 | each field of a validated config is its option or its default; `trpcOptionsPath` stays optional; the action list is non-empty |
| GeneratorConfig.ParseConfigDefaults | src/config.ts:12-27 | with no options, every default applies and every model action is generated |
| AttributeScan.RunEnd | src/helpers.ts:217-219 | a greedy `[…]+` run: the end is the first character outside the class |
| AttributeScan.LastClose | src/helpers.ts:217-219 | the last `)` in `[lo, hi)`, with no `)` after it in that range, or none when the range holds no `)` |
| AttributeScan.CloseEnd | src/helpers.ts:217-219 | the greedy `(.+)+(\))+` tail after the run ending at `b` ends just after the last `)` on the line at `b + 2` or later, and everything it spans is on the line; there is no match when the line holds no such `)` |
| AttributeScan.FirstMatchFrom | src/helpers.ts:217-219 | the first start from which the expression matches, with its end, or no such start |
| AttributeScan.SliceInner | src/helpers.ts:224-230 | `slice(1, -1)`: the text without its first and last characters, and empty for shorter texts |
| AttributeScan.RunEndExact | src/helpers.ts:217-219 | a run of class characters ended by a non-class character is exactly what the scanner consumes |
| AttributeScan.GenRunEndOfRepeat | src/helpers.ts:217 | `(@@Gen\.)+` consumes every repetition of the prefix |
| AttributeScan.GenRunEndIsRepeat | src/helpers.ts:217 | what `(@@Gen\.)+` consumes is a repetition of the prefix |
| AttributeScan.ModelAttributeEndSound | src/helpers.ts:217 | a match of the scanner for the model-attribute expression is in that expression's language |
| AttributeScan.AttributeNameEndSound | src/helpers.ts:218 | a match of the scanner for the attribute-name expression is in that expression's language |
| AttributeScan.AttributeArgsEndSound | src/helpers.ts:219 | a match of the scanner for the attribute-arguments expression is in that expression's language |
| AttributeScan.EndAtSound | src/helpers.ts:217-219 | for each of the three expressions, what the scanner matches at a start is a non-empty word of the expression |
| AttributeScan.ModelAttributeEndComplete | src/helpers.ts:217 | at a start where the model-attribute expression matches, the scanner reaches at least that far |
| AttributeScan.AttributeNameEndComplete | src/helpers.ts:218 | at a start where the attribute-name expression matches, the scanner reaches at least that far |
| AttributeScan.AttributeArgsEndComplete | src/helpers.ts:219 | at a start where the attribute-arguments expression matches, the scanner reaches at least that far |
| AttributeScan.EndAtComplete | src/helpers.ts:217-219 | wherever a word of the expression starts, the scanner matches there and reaches at least its end |
| AttributeScan.MatchIsLeftmostLongest | src/helpers.ts:217-226 | `match(...)?.[0]` is the leftmost word of the expression, and the longest one at that start; when it returns nothing, no substring is a word of the expression |
| AttributeScan.NoMatchWithoutStart | src/helpers.ts:217-219 | no match starts at a character other than the expression's first literal |
| AttributeScan.EndAt | src/helpers.ts:217-219 | a match at `p` starts with the expression's first character and ends after `p`, within the text |
| AttributeScan.Match | src/helpers.ts:223-229 | a returned match is non-empty, occurs in the text and starts with the expression's first character |
| AttributeScan.MatchOccurs | src/helpers.ts:223-229 | a returned match occurs in the text and is in the expression's language |
| AttributeScan.ModelAttributeWordStart | src/helpers.ts:217 | a model attribute starts with `@@Gen.` |
| AttributeScan.AttributeNameWordEnds | src/helpers.ts:218 | an attribute-name match starts with `.` and ends with `(` |
| AttributeScan.AttributeArgsWordEnds | src/helpers.ts:219 | an argument-list match starts with `(` and ends with `)` |
| AttributeScan.MatchAt | src/helpers.ts:223-229 | a match at the first occurrence of the expression's first literal is the match returned |
| AttributeScan.ArgsColonRunShortened | src/helpers.ts:219 | the argument expression matches the whole of `(a::)`: the `:` run gives one colon back to `.+` |
| AttributeScan.ModelParenRunShortened | src/helpers.ts:217 | the model expression matches the whole of `@@Gen.m(()`: the `(` run gives one parenthesis back to `.+` |
| ModelComments.NameList.Push | src/helpers.ts:248 | `hiddenModels.push`: the name is appended and nothing else changes |
| ModelComments.TrimAll | src/helpers.ts:236 | `.map((it) => it.trim())`: the same number of parts, each trimmed |
| ModelComments.CommaPieces | src/helpers.ts:237 | joining the result with `,` gives the piece back; a piece that opens an array stays whole, and otherwise no result piece contains a comma |
| ModelComments.ArgPartsTrimmed | src/helpers.ts:234-239 | every argument part is trimmed |
| ModelComments.ArgPartsFreeOfColon | src/helpers.ts:234-239 | no argument part contains `:`, so no value text is a non-empty JSON object |
| ModelComments.ArgPartsOfPair | src/helpers.ts:234-239 | `key: value` with no further colon or comma splits into exactly the trimmed key and the trimmed value |
| ModelComments.ParseAttributeArgs | src/helpers.ts:241-245 | the pair loop builds `ArgsOf(parts)`: each key is set to its parsed value, or the loop throws on the first value that is not JSON or is missing |
| ModelComments.ArgsOfOkIff | src/helpers.ts:241-245 | the loop completes exactly when the parts come in pairs and every value parses |
| ModelComments.ArgsOfStep | src/helpers.ts:241-245 | one iteration: the first key is set to the parsed first value and the loop goes on two parts later |
| ModelComments.ArgsOfKeys | src/helpers.ts:241-245 | the keys of the resulting object are the keys already there plus exactly the keys of the pairs |
| ModelComments.ArgsOfLastValueWins | src/helpers.ts:241-245 | a key holds the parsed value of its last pair |
| ModelComments.ArgsOfUntouched | src/helpers.ts:232-245 | a key that no pair names keeps its value |
| ModelComments.HiddenScan | src/helpers.ts:221-251 | the scan pushes at most one name per model |
| ModelComments.HiddenScanConcat | src/helpers.ts:221-251 | scanning a concatenation scans the second part only when the first ends without error |
| ModelComments.HiddenScanGrow | src/helpers.ts:221-251 | one more loop iteration extends the scan by that model's outcome |
| ModelComments.HiddenScanStopped | src/helpers.ts:221-251 | once an error has escaped, later models change nothing |
| ModelComments.HiddenScanSingle | src/helpers.ts:221-251 | one model is pushed if hidden, kept if not, and its error escapes |
| ModelComments.HiddenScanPushesHidden | src/helpers.ts:221-251 | no error escapes exactly when every model's arguments parse; then exactly the names of hidden models are pushed |
| ModelComments.HiddenScanStopsAtFirstError | src/helpers.ts:221-251 | the first model whose arguments throw ends the scan with its error, after the names pushed before it |
| ModelComments.ScanModels | src/helpers.ts:221-251 | the loop, given each model's verdict, pushes the names of `HiddenScan`, in model order, and returns the error that escapes, if any |
| ModelComments.ResolveModelsComments | src/helpers.ts:213-252 | `hiddenModels` becomes its old contents followed by the names of the hidden models, in order, stopping at the first `SyntaxError`, which escapes |
| ModelComments.NoGenAttributeKeepsModel | src/helpers.ts:222-227 | documentation without `@@Gen.` never hides a model and never throws |
| ModelComments.ModelNameOccurs | src/helpers.ts:224-227 | an attribute whose name slices to `model` contains `.model(` |
| ModelComments.NameNotModel | src/helpers.ts:224-227 | an attribute without `.model(` is not named `model` |
| ModelComments.OtherAttributeKeepsModel | src/helpers.ts:222-227 | documentation without `.model(` (another attribute, such as `@@Gen.router(…)`) never hides a model and never throws |
| ModelComments.HiddenAttribute | src/helpers.ts:223 | the attribute of a hidden model occurs in its documentation, starts with `@@Gen.` and hides the model |
| ModelComments.HidingArgs | src/helpers.ts:228-246 | an attribute that hides its model holds an argument text whose pair loop succeeds with a truthy `hide` |
| ModelComments.HidingParts | src/helpers.ts:241-247 | when the object built from the parts has a truthy `hide`, the last `hide` pair of the parts carries a truthy JSON value |
| ModelComments.HiddenModelCarriesHide | src/helpers.ts:221-249 | a hidden model's documentation contains `@@Gen.`, `.model(`, and an argument text whose last `hide` pair parses to a truthy value |
| ModelCommentExamples.HideDocAttribute | src/helpers.ts:217-223 | the model-attribute expression matches the whole line `@@Gen.model(hide: <w>)` |
| ModelCommentExamples.HideDocNameIsModel | src/helpers.ts:218-227 | the attribute name of that line slices to `model` |
| ModelCommentExamples.HideDocRawArgs | src/helpers.ts:219-230 | the raw argument text of that line is `hide: <w>` |
| ModelCommentExamples.HideDocArgParts | src/helpers.ts:234-239 | `hide: <w>` cuts into the parts `hide` and `<w>` |
| ModelCommentExamples.HideDocVerdict | src/helpers.ts:221-249 | a model documented `@@Gen.model(hide: <w>)`, for a plain value `w`, is hidden exactly when `w` parses to a truthy value, kept when it parses to a falsy one, and throws a `SyntaxError` carrying `w` when it does not parse |
| ModelCommentExamples.HideTrueHidesModel | src/helpers.ts:217-249 | a model documented `@@Gen.model(hide: true)` is hidden |
| ModelCommentExamples.HideFalseKeepsModel | src/helpers.ts:217-249 | a model documented `@@Gen.model(hide: false)` is kept |
| ModelCommentExamples.HideYesThrows | src/helpers.ts:241-245 | `@@Gen.model(hide: yes)` makes the scan throw a `SyntaxError` for `yes` |
| ModelCommentExamples.HideFalsyKeepsModel | src/helpers.ts:247-249 | `hide: null`, `hide: 0` and `hide: ""` keep the model |
| Json.Parse | src/helpers.ts:244 | `JSON.parse` only accepts text with a non-white-space character |
| Json.ParseBooleans | src/helpers.ts:244 | `JSON.parse("true")` and `JSON.parse("false")` are the two booleans |
| Json.ParseFalsyLiterals | src/helpers.ts:244-247 | `null`, `0` and `""` parse, to falsy values |
| Json.ParseRejectsYes | src/helpers.ts:244 | the bare word `yes` is not JSON |
| Strings.Split | src/helpers.ts:235 | `split` gives at least one piece, and no piece contains the separator |
| Strings.JoinWithEnds | src/utils/getRelativePath.ts:22-23 | `join` starts with the first part and ends with the last one |
| Strings.JoinSplit | src/utils/getRelativePath.ts:22-23 | joining the pieces of a split with the separator gives the text back |
| Strings.SplitJoin | src/helpers.ts:235 | splitting a join of separator-free pieces gives the pieces back |
| Strings.Trim | src/helpers.ts:236 | `trim` gives text with no white space at either end, made of characters of the input |
| Strings.TrimRemovesOnlyWhitespace | src/helpers.ts:236 | the trimmed text is a contiguous part of the input, and everything before and after it is white space |
| Strings.TrimIdempotent | src/helpers.ts:239 | trimming twice changes nothing |
| Strings.ReplaceFirst | src/helpers.ts:90 | `replace('One', '')` removes only the first occurrence, and changes nothing when there is none |
| Strings.UncapitalizeFirst | src/helpers.ts:88-89 | only the first letter changes, and it becomes lower case |
| Paths.Normalize | src/utils/getRelativePath.ts:9-10 | a path is absolute exactly when it starts with `/` |
| Paths.NormalizeWellFormed | src/utils/getRelativePath.ts:9-10 | a normalised path holds only names, except for leading `..` in a relative path |
| Paths.NormalizeRender | src/utils/getRelativePath.ts:9-10 | normalising the text of a normalised path gives it back |
| Paths.NormalizeIdempotent | src/utils/getRelativePath.ts:9-10 | `normalize` is idempotent |
| Paths.CommonPrefixLength | src/utils/getRelativePath.ts:20-21 | the longest common prefix of two segment lists |
| Paths.FoldAppend | src/utils/getRelativePath.ts:9-10 | normalising a concatenation normalises the second part from where the first left off |
| Paths.ResolveNames | src/utils/getRelativePath.ts:20-21 | a resolved path holds only names |
| Paths.ResolveNormalized | src/utils/getRelativePath.ts:9-10 | resolving a normalised path is resolving the path itself |
| Paths.ResolveJoin | src/utils/getRelativePath.ts:10 | `path.join(a, b)` resolves to `b` followed from `a`; empty arguments are ignored |
| Paths.ResolveEmpty | src/utils/getRelativePath.ts:20-21 | the empty path resolves to the working directory |
| Paths.RelativeShape | src/utils/getRelativePath.ts:20-21 | `path.relative` is empty exactly when both sides resolve alike, never starts with `/`, and is otherwise `..` segments up to the common prefix, then names down to the target |
| Paths.RelativeRoundTrip | src/utils/getRelativePath.ts:20-21 | joining `from` with `relative(from, to)` resolves to `to` |
| Paths.RelativeToSelf | src/utils/getRelativePath.ts:20-21 | a path relative to itself is empty |
| RelativePath.ToPosixSeparators | src/utils/getRelativePath.ts:22-23 | with `/` as `path.sep`, splitting and re-joining leaves the text unchanged |
| RelativePath.HelpersDirectoryResolves | src/utils/getRelativePath.ts:9 | the helpers directory is `routers/helpers` under the output directory, or under the working directory when the output path is empty |
| RelativePath.HelpersUnderOutput | src/utils/getRelativePath.ts:9 | for a non-empty output path, the helpers directory is `routers/helpers` under it |
| RelativePath.SchemaDirectoryHoldsSchema | src/utils/getRelativePath.ts:13-16 | the schema directory, `/` and the schema file's name make up the schema path; a path without `/` has the empty directory |
| RelativePath.TargetPathResolves | src/utils/getRelativePath.ts:10-18 | the target is `filePath` followed from the output directory, or from the schema file's directory when the module lies outside the output |
| RelativePath.GetRelativePath | src/utils/getRelativePath.ts:3-26 | joining the helpers directory with the result resolves to the target, and the result never starts with `/` |
| RelativePath.GetRelativePathShape | src/utils/getRelativePath.ts:20-25 | the result is empty exactly when the target is the helpers directory, and otherwise `..` segments followed by names |

## Left out

- `console.log` in the two classifiers' `default` branches is output only. The model returns `None` (undefined) there.
- Template-literal indentation and leading newlines of the emitted code are not reproduced. The statement texts keep their content and line structure, not their exact white space.
- ts-morph's `addImportDeclaration` inserts after the last existing import. The model appends, because it only tracks which declarations are added, in order.
- `uncapitalizeFirstLetter` and the capitalisation in the validator naming rule are modelled for ASCII letters only; JavaScript's full Unicode case mapping is not.
- Json.Parse: its own contract only says that accepted text is not blank. The cases the hiding rule meets are proved separately (`ParseBooleans`, `ParseFalsyLiterals`, `ParseRejectsYes`); the grammar is not proved equal to the JSON standard's. Numbers keep their lexeme. A number that underflows to zero is still truthy when a mantissa digit is non-zero. String escapes are checked but not decoded.
- zod's error messages and issue paths are not modelled. `ConfigError` keeps only which options failed, or the first rejected model-action token.
- A non-string option value is not modelled: every option arrives as a string.
- The `z.string().default("../../../../src/middleware")` arm of `configStringOrBoolean` is not modelled separately. The outer `.default('true')` always applies first, so that inner default is never reached.
- Node's `path` module is modelled for POSIX only. `path.sep` is `/`, so `ToPosixSeparators` is the identity. Windows drive letters and `\` separators are not modelled.
- The process working directory is a parameter `cwd`, given as a list of names.
- `path.join`'s trailing `/` is not kept: a joined path is rendered without it. This does not change what it resolves to, and every property is stated on resolved paths.
- ModelCommentExamples.HideDocVerdict: stated for value texts without `:`, `,`, line terminators or white space at their ends. Other values are cut into more parts; `ArgPartsOfPair` and the pair-loop lemmas cover them in general.
- ModelComments.ArgsOfKeys: the arguments object is a map. JavaScript's `__proto__` key, which sets the object's prototype instead of an own property, is not modelled.
- ModelComments.ArgsOfLastValueWins: as above, a `__proto__` key is treated as an ordinary key.
- GetRelativePath: when `isOutsideOutputPath` is set, `schemaPath` must be given. The source would throw a `TypeError` on `undefined.split`; that path is not modelled.
- An absent `isOutsideOutputPath` (undefined) is modelled as `false`, which is how the source's `if` treats it.
- `src/prisma-generator.ts` and `src/index.ts`, which call these helpers and write the files, are not part of this model. Neither are the other utilities of the repository.
- The `DMMF.ModelAction` enumeration is a parameter `actions` of the config functions, because its members come from `@prisma/generator-helper`.
