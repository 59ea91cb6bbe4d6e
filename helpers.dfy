/**
 * The code-generation helpers: classifying Prisma operations, naming their
 * input validators, and appending import declarations, the base router, the
 * schema imports and procedure definitions to a generated source file.
 */
module Helpers {
  import opened Wrappers
  import opened Strings
  import opened SourceFiles
  import opened GeneratorConfig

  /** The two kinds of tRPC procedure. */
  datatype ProcedureType = Query | Mutation

  /** The read-only operations, in the order the classifier lists them. */
  const QueryOperations: seq<string> :=
    ["findUnique", "findFirst", "findMany", "findRaw", "aggregate", "aggregateRaw", "groupBy"]

  /** The operations that change data, in the order the classifier lists them. */
  const MutationOperations: seq<string> :=
    ["createOne", "createMany", "deleteOne", "updateOne", "deleteMany", "updateMany", "upsertOne"]

  /** The two MongoDB-only operations, whose validators are object schemas. */
  const RawOperations: seq<string> := ["findRaw", "aggregateRaw"]

  /** Every operation the helpers know. */
  const KnownOperations: seq<string> := QueryOperations + MutationOperations

  // ---------------------------------------------------------------------
  // Operation classifier

  /** `getProcedureTypeByOpName`: `None` (after a log line) for an unknown name. */
  function ProcedureTypeByOpName(opName: string): (r: Option<ProcedureType>)
    ensures r == Some(Query) <==> opName in QueryOperations
    ensures r == Some(Mutation) <==> opName in MutationOperations
    ensures r == None <==> opName !in KnownOperations
  {
    match opName
    case "findUnique" | "findFirst" | "findMany" | "findRaw" | "aggregate" | "aggregateRaw" | "groupBy" =>
      Some(Query)
    case "createOne" | "createMany" | "deleteOne" | "updateOne" | "deleteMany" | "updateMany" | "upsertOne" =>
      Some(Mutation)
    case _ => None
  }

  /** `getInputTypeByOpName`: the name of the zod schema validating the operation's input. */
  function InputTypeByOpName(opName: string, modelName: string): (r: Option<string>)
    ensures r.Some? <==> opName in KnownOperations
    ensures r.Some? ==> StartsWith(r.value, modelName)
  {
    match opName
    case "findUnique" => Some(modelName + "FindUniqueSchema")
    case "findFirst" => Some(modelName + "FindFirstSchema")
    case "findMany" => Some(modelName + "FindManySchema")
    case "findRaw" => Some(modelName + "FindRawObjectSchema")
    case "createOne" => Some(modelName + "CreateOneSchema")
    case "createMany" => Some(modelName + "CreateManySchema")
    case "deleteOne" => Some(modelName + "DeleteOneSchema")
    case "updateOne" => Some(modelName + "UpdateOneSchema")
    case "deleteMany" => Some(modelName + "DeleteManySchema")
    case "updateMany" => Some(modelName + "UpdateManySchema")
    case "upsertOne" => Some(modelName + "UpsertSchema")
    case "aggregate" => Some(modelName + "AggregateSchema")
    case "aggregateRaw" => Some(modelName + "AggregateRawObjectSchema")
    case "groupBy" => Some(modelName + "GroupBySchema")
    case _ => None
  }

  /**
   * The naming rule the validator names follow: the model name, the
   * operation name capitalised and "Schema"; `upsertOne` drops its "One",
   * and the raw operations name an object schema.
   */
  function ValidatorName(opName: string, modelName: string): string
  {
    if opName == "upsertOne" then modelName + "UpsertSchema"
    else if opName in RawOperations then modelName + CapitalizeFirst(opName) + "ObjectSchema"
    else modelName + CapitalizeFirst(opName) + "Schema"
  }

  /** Every known operation's validator name follows the naming rule. */
  lemma InputTypeFollowsNamingRule(opName: string, modelName: string)
    requires opName in KnownOperations
    ensures InputTypeByOpName(opName, modelName) == Some(ValidatorName(opName, modelName))
  {
    if opName in QueryOperations {
      QueryInputTypesFollowNamingRule(opName, modelName);
    } else {
      MutationInputTypesFollowNamingRule(opName, modelName);
    }
  }

  lemma QueryInputTypesFollowNamingRule(opName: string, modelName: string)
    requires opName in QueryOperations
    ensures InputTypeByOpName(opName, modelName) == Some(ValidatorName(opName, modelName))
  {
    if opName == "findUnique" {
      FindUniqueNamingRule(opName, modelName);
    } else if opName == "findFirst" {
      FindFirstNamingRule(opName, modelName);
    } else if opName == "findMany" {
      FindManyNamingRule(opName, modelName);
    } else if opName == "findRaw" {
      FindRawNamingRule(opName, modelName);
    } else if opName == "aggregate" {
      AggregateNamingRule(opName, modelName);
    } else if opName == "aggregateRaw" {
      AggregateRawNamingRule(opName, modelName);
    } else if opName == "groupBy" {
      GroupByNamingRule(opName, modelName);
    }
  }

  lemma MutationInputTypesFollowNamingRule(opName: string, modelName: string)
    requires opName in MutationOperations
    ensures InputTypeByOpName(opName, modelName) == Some(ValidatorName(opName, modelName))
  {
    if opName == "createOne" {
      CreateOneNamingRule(opName, modelName);
    } else if opName == "createMany" {
      CreateManyNamingRule(opName, modelName);
    } else if opName == "deleteOne" {
      DeleteOneNamingRule(opName, modelName);
    } else if opName == "updateOne" {
      UpdateOneNamingRule(opName, modelName);
    } else if opName == "deleteMany" {
      DeleteManyNamingRule(opName, modelName);
    } else if opName == "updateMany" {
      UpdateManyNamingRule(opName, modelName);
    }
  }

  // One operation at a time: each case of the classifier against the rule.

  lemma FindUniqueNamingRule(opName: string, modelName: string)
    requires opName == "findUnique"
    ensures InputTypeByOpName(opName, modelName) == Some(ValidatorName(opName, modelName))
  {
    assert CapitalizeFirst(opName) == "FindUnique";
    assert modelName + "FindUniqueSchema" == modelName + CapitalizeFirst(opName) + "Schema";
  }

  lemma FindFirstNamingRule(opName: string, modelName: string)
    requires opName == "findFirst"
    ensures InputTypeByOpName(opName, modelName) == Some(ValidatorName(opName, modelName))
  {
    assert CapitalizeFirst(opName) == "FindFirst";
    assert modelName + "FindFirstSchema" == modelName + CapitalizeFirst(opName) + "Schema";
  }

  lemma FindManyNamingRule(opName: string, modelName: string)
    requires opName == "findMany"
    ensures InputTypeByOpName(opName, modelName) == Some(ValidatorName(opName, modelName))
  {
    assert CapitalizeFirst(opName) == "FindMany";
    assert modelName + "FindManySchema" == modelName + CapitalizeFirst(opName) + "Schema";
  }

  lemma FindRawNamingRule(opName: string, modelName: string)
    requires opName == "findRaw"
    ensures InputTypeByOpName(opName, modelName) == Some(ValidatorName(opName, modelName))
  {
    assert CapitalizeFirst(opName) == "FindRaw";
    assert modelName + "FindRawObjectSchema" == modelName + CapitalizeFirst(opName) + "ObjectSchema";
  }

  lemma AggregateNamingRule(opName: string, modelName: string)
    requires opName == "aggregate"
    ensures InputTypeByOpName(opName, modelName) == Some(ValidatorName(opName, modelName))
  {
    assert CapitalizeFirst(opName) == "Aggregate";
    assert modelName + "AggregateSchema" == modelName + CapitalizeFirst(opName) + "Schema";
  }

  lemma AggregateRawNamingRule(opName: string, modelName: string)
    requires opName == "aggregateRaw"
    ensures InputTypeByOpName(opName, modelName) == Some(ValidatorName(opName, modelName))
  {
    assert CapitalizeFirst(opName) == "AggregateRaw";
    assert modelName + "AggregateRawObjectSchema" == modelName + CapitalizeFirst(opName) + "ObjectSchema";
  }

  lemma GroupByNamingRule(opName: string, modelName: string)
    requires opName == "groupBy"
    ensures InputTypeByOpName(opName, modelName) == Some(ValidatorName(opName, modelName))
  {
    assert CapitalizeFirst(opName) == "GroupBy";
    assert modelName + "GroupBySchema" == modelName + CapitalizeFirst(opName) + "Schema";
  }

  lemma CreateOneNamingRule(opName: string, modelName: string)
    requires opName == "createOne"
    ensures InputTypeByOpName(opName, modelName) == Some(ValidatorName(opName, modelName))
  {
    assert CapitalizeFirst(opName) == "CreateOne";
    assert modelName + "CreateOneSchema" == modelName + CapitalizeFirst(opName) + "Schema";
  }

  lemma CreateManyNamingRule(opName: string, modelName: string)
    requires opName == "createMany"
    ensures InputTypeByOpName(opName, modelName) == Some(ValidatorName(opName, modelName))
  {
    assert CapitalizeFirst(opName) == "CreateMany";
    assert modelName + "CreateManySchema" == modelName + CapitalizeFirst(opName) + "Schema";
  }

  lemma DeleteOneNamingRule(opName: string, modelName: string)
    requires opName == "deleteOne"
    ensures InputTypeByOpName(opName, modelName) == Some(ValidatorName(opName, modelName))
  {
    assert CapitalizeFirst(opName) == "DeleteOne";
    assert modelName + "DeleteOneSchema" == modelName + CapitalizeFirst(opName) + "Schema";
  }

  lemma UpdateOneNamingRule(opName: string, modelName: string)
    requires opName == "updateOne"
    ensures InputTypeByOpName(opName, modelName) == Some(ValidatorName(opName, modelName))
  {
    assert CapitalizeFirst(opName) == "UpdateOne";
    assert modelName + "UpdateOneSchema" == modelName + CapitalizeFirst(opName) + "Schema";
  }

  lemma DeleteManyNamingRule(opName: string, modelName: string)
    requires opName == "deleteMany"
    ensures InputTypeByOpName(opName, modelName) == Some(ValidatorName(opName, modelName))
  {
    assert CapitalizeFirst(opName) == "DeleteMany";
    assert modelName + "DeleteManySchema" == modelName + CapitalizeFirst(opName) + "Schema";
  }

  lemma UpdateManyNamingRule(opName: string, modelName: string)
    requires opName == "updateMany"
    ensures InputTypeByOpName(opName, modelName) == Some(ValidatorName(opName, modelName))
  {
    assert CapitalizeFirst(opName) == "UpdateMany";
    assert modelName + "UpdateManySchema" == modelName + CapitalizeFirst(opName) + "Schema";
  }

  /** Every name the naming rule gives ends in "Schema". */
  lemma ValidatorNameEndsWithSchema(opName: string, modelName: string)
    ensures EndsWith(ValidatorName(opName, modelName), "Schema")
  {
    var v := ValidatorName(opName, modelName);
    if opName == "upsertOne" {
      EndsWithAppend(modelName + "Upsert", "Schema");
      assert v == modelName + "Upsert" + "Schema";
    } else if opName in RawOperations {
      EndsWithAppend(modelName + CapitalizeFirst(opName) + "Object", "Schema");
      assert v == modelName + CapitalizeFirst(opName) + "Object" + "Schema";
    } else {
      EndsWithAppend(modelName + CapitalizeFirst(opName), "Schema");
    }
  }

  // ---------------------------------------------------------------------
  // Single-import emitters

  /** `generateCreateRouterImport`: imports the router factory the caller needs. */
  method GenerateCreateRouterImport(sourceFile: SourceFile, isProtectedMiddleware: bool)
    modifies sourceFile
    ensures sourceFile.statements == old(sourceFile.statements) + [Import(ImportDeclaration(
      "./helpers/createRouter",
      [if isProtectedMiddleware then "createProtectedRouter" else "createRouter"],
      None))]
  {
    sourceFile.AddImportDeclaration(ImportDeclaration(
      "./helpers/createRouter",
      [if isProtectedMiddleware then "createProtectedRouter" else "createRouter"],
      None));
  }

  /** `generatetRPCImport`: `import * as trpc from '@trpc/server'`. */
  method GenerateTrpcImport(sourceFile: SourceFile)
    modifies sourceFile
    ensures sourceFile.statements == old(sourceFile.statements) + [Import(ImportDeclaration("@trpc/server", [], Some("trpc")))]
  {
    sourceFile.AddImportDeclaration(ImportDeclaration("@trpc/server", [], Some("trpc")));
  }

  /** `generateShieldImport`: imports `permissions` from the shield module under `shieldOutputPath`. */
  method GenerateShieldImport(sourceFile: SourceFile, shieldOutputPath: string)
    modifies sourceFile
    ensures sourceFile.statements == old(sourceFile.statements) + [Import(ImportDeclaration(shieldOutputPath + "/shield", ["permissions"], None))]
  {
    sourceFile.AddImportDeclaration(ImportDeclaration(shieldOutputPath + "/shield", ["permissions"], None));
  }

  /** `generateRouterImport`: imports one model's router into the app router. */
  method GenerateRouterImport(sourceFile: SourceFile, modelNamePlural: string, modelNameCamelCase: string)
    modifies sourceFile
    ensures sourceFile.statements == old(sourceFile.statements) + [Import(ImportDeclaration(
      "./" + modelNameCamelCase + ".router", [modelNamePlural + "Router"], None))]
  {
    sourceFile.AddImportDeclaration(ImportDeclaration(
      "./" + modelNameCamelCase + ".router", [modelNamePlural + "Router"], None));
  }

  // ---------------------------------------------------------------------
  // Base router and its middleware chain

  /** The middlewares the protected router may apply. */
  datatype Middleware = Logging | Permissions

  /** The example logging middleware, a pass-through. */
  const LoggingMiddlewareText: string :=
    ".middleware(({ ctx, next }) => {\n  console.log(\"inside middleware!\")\n  return next();\n})"

  /** The shield middleware, applying the exported `permissions`. */
  const PermissionsMiddlewareText: string := ".middleware(permissions)"

  function MiddlewareText(m: Middleware): string
  {
    match m
    case Logging => LoggingMiddlewareText
    case Permissions => PermissionsMiddlewareText
  }

  function MiddlewareTexts(chain: seq<Middleware>): (r: seq<string>)
    ensures |r| == |chain|
    ensures forall i :: 0 <= i < |chain| ==> r[i] == MiddlewareText(chain[i])
  {
    if |chain| == 0 then [] else [MiddlewareText(chain[0])] + MiddlewareTexts(chain[1..])
  }

  /**
   * The middleware chain of the protected router: logging when
   * `withMiddleware` is truthy (a non-empty path counts), permissions when
   * `withShield`, logging always first.
   */
  function Middlewares(config: Config): (r: seq<Middleware>)
    ensures Logging in r <==> MiddlewareEnabled(config.withMiddleware)
    ensures Permissions in r <==> config.withShield
    ensures forall i, j :: 0 <= i < j < |r| ==> r[i] == Logging && r[j] == Permissions
  {
    (if MiddlewareEnabled(config.withMiddleware) then [Logging] else [])
    + (if config.withShield then [Permissions] else [])
  }

  /** The texts of the chain, one optional middleware after the other. */
  lemma MiddlewareTextsOfConfig(config: Config)
    ensures MiddlewareTexts(Middlewares(config))
      == (if MiddlewareEnabled(config.withMiddleware) then [LoggingMiddlewareText] else [])
       + (if config.withShield then [PermissionsMiddlewareText] else [])
  {
    var r := Middlewares(config);
    assert |r| <= 2;
    assert forall i :: 0 <= i < |r| ==> r[i] == (if i == 0 && MiddlewareEnabled(config.withMiddleware) then Logging else Permissions);
  }

  /** The `createRouter` factory, typed by the user's `Context` module. */
  function CreateRouterText(contextPath: string): string
  {
    "import { Context } from '" + contextPath + "';\n\n"
    + "export function createRouter() {\n  return trpc.router<Context>();\n}"
  }

  /** The `createProtectedRouter` factory applying the chain text after `.router<Context>()`. */
  function ProtectedRouterText(chain: string): string
  {
    "export function createProtectedRouter() {\n  return trpc\n    .router<Context>()\n    "
    + chain + ";\n}"
  }

  /**
   * `generateBaseRouter`: appends the `createRouter` factory and then the
   * `createProtectedRouter` factory with the middleware chain joined by '\r';
   * the protected factory is emitted even when the chain is empty.
   */
  method GenerateBaseRouter(sourceFile: SourceFile, config: Config)
    modifies sourceFile
    ensures sourceFile.statements == old(sourceFile.statements) + [
      Code(CreateRouterText(config.contextPath)),
      Code(ProtectedRouterText(JoinWith(MiddlewareTexts(Middlewares(config)), "\r")))]
  {
    sourceFile.AddStatements(CreateRouterText(config.contextPath));
    var middlewares := CollectMiddlewares(config);
    sourceFile.AddStatements(ProtectedRouterText(JoinWith(middlewares, "\r")));
  }

  /** The `middlewares` array of `generateBaseRouter`, pushed to one option at a time. */
  method CollectMiddlewares(config: Config) returns (middlewares: seq<string>)
    ensures middlewares == MiddlewareTexts(Middlewares(config))
  {
    middlewares := [];
    if MiddlewareEnabled(config.withMiddleware) {
      middlewares := middlewares + [LoggingMiddlewareText];
    }
    if config.withShield {
      middlewares := middlewares + [PermissionsMiddlewareText];
    }
    MiddlewareTextsOfConfig(config);
  }



  // ---------------------------------------------------------------------
  // Procedures

  /**
   * The parts of one generated procedure: the router method, the procedure
   * name (also the name of the constant holding the awaited result, which is
   * returned unchanged), the input validator, the Prisma delegate and the
   * delegate method called.
   */
  datatype Procedure = Procedure(
    routerMethod: string,
    name: string,
    input: string,
    receiver: string,
    verb: string)

  /** The router method a classification interpolates to; `undefined` when there is none. */
  function ProcedureTypeText(t: Option<ProcedureType>): string
  {
    match t
    case Some(Query) => "query"
    case Some(Mutation) => "mutation"
    case None => "undefined"
  }

  /**
   * The procedure `generateProcedure` emits: the method is the
   * classification of `baseOpType`, the delegate is the model name with its
   * first letter lower-cased, and the delegate method is `opType` with its
   * first "One" removed.
   */
  function ProcedureOf(name: string, typeName: string, modelName: string, opType: string, baseOpType: string): (p: Procedure)
    ensures p.routerMethod == "query" <==> baseOpType in QueryOperations
    ensures p.routerMethod == "mutation" <==> baseOpType in MutationOperations
    ensures p.name == name && p.input == typeName
    ensures |p.receiver| == |modelName|
    ensures |modelName| > 0 ==> p.receiver[0] == ToLowerAscii(modelName[0]) && p.receiver[1..] == modelName[1..]
    ensures (forall k: nat :: !OccursAt(opType, "One", k)) ==> p.verb == opType
    ensures forall k: nat :: OccursAt(opType, "One", k) && (forall j: nat :: j < k ==> !OccursAt(opType, "One", j))
                             ==> p.verb == opType[..k] + opType[k + 3..]
  {
    Procedure(
      ProcedureTypeText(ProcedureTypeByOpName(baseOpType)),
      name,
      typeName,
      UncapitalizeFirst(modelName),
      ReplaceFirst(opType, "One", ""))
  }

  /** The text of a procedure definition chained onto a router. */
  function RenderProcedure(p: Procedure): string
  {
    "." + p.routerMethod + "(\"" + p.name + "\", {\n"
    + "  input: " + p.input + ",\n"
    + "  async resolve({ ctx, input }) {\n"
    + "    const " + p.name + " = await ctx.prisma." + p.receiver + "." + p.verb + "(input);\n"
    + "    return " + p.name + ";\n"
    + "  },\n"
    + "})"
  }

  /** `generateProcedure`: appends one procedure definition. */
  method GenerateProcedure(sourceFile: SourceFile, name: string, typeName: string, modelName: string, opType: string, baseOpType: string)
    modifies sourceFile
    ensures sourceFile.statements == old(sourceFile.statements)
      + [Code(RenderProcedure(ProcedureOf(name, typeName, modelName, opType, baseOpType)))]
  {
    sourceFile.AddStatements(RenderProcedure(ProcedureOf(name, typeName, modelName, opType, baseOpType)));
  }

  /**
   * Only the first "One" goes: `createOne` and `upsertOne` call `create` and
   * `upsert`, `findMany` keeps its name, and the delegate of `User` is `user`.
   */
  lemma DelegateMethodExamples()
    ensures ProcedureOf("n", "T", "User", "createOne", "createOne").verb == "create"
    ensures ProcedureOf("n", "T", "User", "upsertOne", "upsertOne").verb == "upsert"
    ensures ProcedureOf("n", "T", "User", "findMany", "findMany").verb == "findMany"
    ensures ProcedureOf("n", "T", "User", "findMany", "findMany").receiver == "user"
  {
    var create := "createOne";
    assert OccursAt(create, "One", 6);
    NoOccurrenceBefore(create, "One", 6);
    assert create[..6] + create[9..] == "create";

    var upsert := "upsertOne";
    assert OccursAt(upsert, "One", 6);
    NoOccurrenceBefore(upsert, "One", 6);
    assert upsert[..6] + upsert[9..] == "upsert";

    var findMany := "findMany";
    NoOccurrenceBefore(findMany, "One", |findMany| + 1);
    assert forall k: nat :: k > |findMany| ==> !OccursAt(findMany, "One", k);

    assert UncapitalizeFirst("User") == "user";
  }

  // ---------------------------------------------------------------------
  // Schema imports of a model router

  /** The operations whose validators a model router imports, in import order. */
  function ImportedOperations(hasCreateMany: bool, provider: string): (r: seq<string>)
    ensures forall i :: 0 <= i < |r| ==> r[i] in KnownOperations
  {
    ["findUnique", "findFirst", "findMany", "createOne"]
    + (if hasCreateMany then ["createMany"] else [])
    + ["deleteOne", "updateOne", "deleteMany", "updateMany", "upsertOne", "aggregate", "groupBy"]
    + (if provider == "mongodb" then RawOperations else [])
  }

  /** The module, relative to the routers directory, that exports an operation's validator. */
  function SchemaModule(opName: string, name: string): string
  {
    match opName
    case "findUnique" => "../schemas/findUnique" + name + ".schema"
    case "findFirst" => "../schemas/findFirst" + name + ".schema"
    case "findMany" => "../schemas/findMany" + name + ".schema"
    case "createOne" => "../schemas/createOne" + name + ".schema"
    case "createMany" => "../schemas/createMany" + name + ".schema"
    case "deleteOne" => "../schemas/deleteOne" + name + ".schema"
    case "updateOne" => "../schemas/updateOne" + name + ".schema"
    case "deleteMany" => "../schemas/deleteMany" + name + ".schema"
    case "updateMany" => "../schemas/updateMany" + name + ".schema"
    case "upsertOne" => "../schemas/upsertOne" + name + ".schema"
    case "aggregate" => "../schemas/aggregate" + name + ".schema"
    case "groupBy" => "../schemas/groupBy" + name + ".schema"
    case "findRaw" => "../schemas/objects/" + name + "FindRaw.schema"
    case "aggregateRaw" => "../schemas/objects/" + name + "AggregateRaw.schema"
    case _ => ""
  }

  /** `import { <schema> } from "<module>";` */
  function ImportText(schema: string, moduleSpecifier: string): string
  {
    "import { " + schema + " } from \"" + moduleSpecifier + "\";"
  }

  /** The import of an operation's validator; an unknown operation has none. */
  function ImportLine(opName: string, name: string): string
  {
    match InputTypeByOpName(opName, name)
    case Some(schema) => ImportText(schema, SchemaModule(opName, name))
    case None => ""
  }

  /** The import lines for a list of known operations, in list order. */
  function ImportLines(ops: seq<string>, name: string): (r: seq<string>)
    ensures |r| == |ops|
    ensures forall i :: 0 <= i < |ops| ==> r[i] == ImportLine(ops[i], name)
  {
    if |ops| == 0 then [] else [ImportLine(ops[0], name)] + ImportLines(ops[1..], name)
  }

  lemma {:induction false} ImportLinesAppend(a: seq<string>, b: seq<string>, name: string)
    ensures ImportLines(a + b, name) == ImportLines(a, name) + ImportLines(b, name)
  {
    if |a| > 0 {
      assert (a + b)[1..] == a[1..] + b;
      ImportLinesAppend(a[1..], b, name);
    } else {
      assert a + b == b;
    }
  }

  /** The import lines of a model router: one per imported operation, naming its validator. */
  function SchemaImportLines(name: string, hasCreateMany: bool, provider: string): seq<string>
  {
    ImportLines(ImportedOperations(hasCreateMany, provider), name)
  }

  lemma LeadingImportLines(name: string)
    ensures ImportLines(["findUnique", "findFirst", "findMany", "createOne"], name) == [
      ImportText(name + "FindUniqueSchema", "../schemas/findUnique" + name + ".schema"),
      ImportText(name + "FindFirstSchema", "../schemas/findFirst" + name + ".schema"),
      ImportText(name + "FindManySchema", "../schemas/findMany" + name + ".schema"),
      ImportText(name + "CreateOneSchema", "../schemas/createOne" + name + ".schema")
    ]
  {
  }

  lemma CreateManyImportLines(name: string)
    ensures ImportLines(["createMany"], name) == [
      ImportText(name + "CreateManySchema", "../schemas/createMany" + name + ".schema")
    ]
  {
  }

  lemma UpdateImportLines(name: string)
    ensures ImportLines(["deleteOne", "updateOne", "deleteMany", "updateMany"], name) == [
      ImportText(name + "DeleteOneSchema", "../schemas/deleteOne" + name + ".schema"),
      ImportText(name + "UpdateOneSchema", "../schemas/updateOne" + name + ".schema"),
      ImportText(name + "DeleteManySchema", "../schemas/deleteMany" + name + ".schema"),
      ImportText(name + "UpdateManySchema", "../schemas/updateMany" + name + ".schema")
    ]
  {
    SingleUpdateImportLines(name);
    ManyUpdateImportLines(name);
    ImportLinesAppend(["deleteOne", "updateOne"], ["deleteMany", "updateMany"], name);
    assert ["deleteOne", "updateOne"] + ["deleteMany", "updateMany"]
      == ["deleteOne", "updateOne", "deleteMany", "updateMany"];
  }

  lemma SingleUpdateImportLines(name: string)
    ensures ImportLines(["deleteOne", "updateOne"], name) == [
      ImportText(name + "DeleteOneSchema", "../schemas/deleteOne" + name + ".schema"),
      ImportText(name + "UpdateOneSchema", "../schemas/updateOne" + name + ".schema")
    ]
  {
  }

  lemma ManyUpdateImportLines(name: string)
    ensures ImportLines(["deleteMany", "updateMany"], name) == [
      ImportText(name + "DeleteManySchema", "../schemas/deleteMany" + name + ".schema"),
      ImportText(name + "UpdateManySchema", "../schemas/updateMany" + name + ".schema")
    ]
  {
  }

  lemma AggregateImportLines(name: string)
    ensures ImportLines(["upsertOne", "aggregate", "groupBy"], name) == [
      ImportText(name + "UpsertSchema", "../schemas/upsertOne" + name + ".schema"),
      ImportText(name + "AggregateSchema", "../schemas/aggregate" + name + ".schema"),
      ImportText(name + "GroupBySchema", "../schemas/groupBy" + name + ".schema")
    ]
  {
  }

  lemma TrailingImportLines(name: string)
    ensures ImportLines(["deleteOne", "updateOne", "deleteMany", "updateMany", "upsertOne", "aggregate", "groupBy"], name) == [
      ImportText(name + "DeleteOneSchema", "../schemas/deleteOne" + name + ".schema"),
      ImportText(name + "UpdateOneSchema", "../schemas/updateOne" + name + ".schema"),
      ImportText(name + "DeleteManySchema", "../schemas/deleteMany" + name + ".schema"),
      ImportText(name + "UpdateManySchema", "../schemas/updateMany" + name + ".schema"),
      ImportText(name + "UpsertSchema", "../schemas/upsertOne" + name + ".schema"),
      ImportText(name + "AggregateSchema", "../schemas/aggregate" + name + ".schema"),
      ImportText(name + "GroupBySchema", "../schemas/groupBy" + name + ".schema")
    ]
  {
    UpdateImportLines(name);
    AggregateImportLines(name);
    ImportLinesAppend(["deleteOne", "updateOne", "deleteMany", "updateMany"], ["upsertOne", "aggregate", "groupBy"], name);
    assert ["deleteOne", "updateOne", "deleteMany", "updateMany"] + ["upsertOne", "aggregate", "groupBy"]
      == ["deleteOne", "updateOne", "deleteMany", "updateMany", "upsertOne", "aggregate", "groupBy"];
  }

  lemma RawImportLines(name: string)
    ensures ImportLines(RawOperations, name) == [
      ImportText(name + "FindRawObjectSchema", "../schemas/objects/" + name + "FindRaw.schema"),
      ImportText(name + "AggregateRawObjectSchema", "../schemas/objects/" + name + "AggregateRaw.schema")
    ]
  {
  }

  /** The import lines of a model router, segment by segment, as the source writes them. */
  lemma SchemaImportSegments(name: string, hasCreateMany: bool, provider: string)
    ensures SchemaImportLines(name, hasCreateMany, provider) ==
      [
        ImportText(name + "FindUniqueSchema", "../schemas/findUnique" + name + ".schema"),
        ImportText(name + "FindFirstSchema", "../schemas/findFirst" + name + ".schema"),
        ImportText(name + "FindManySchema", "../schemas/findMany" + name + ".schema"),
        ImportText(name + "CreateOneSchema", "../schemas/createOne" + name + ".schema")
      ]
      + (if hasCreateMany then [ImportText(name + "CreateManySchema", "../schemas/createMany" + name + ".schema")] else [])
      + [
        ImportText(name + "DeleteOneSchema", "../schemas/deleteOne" + name + ".schema"),
        ImportText(name + "UpdateOneSchema", "../schemas/updateOne" + name + ".schema"),
        ImportText(name + "DeleteManySchema", "../schemas/deleteMany" + name + ".schema"),
        ImportText(name + "UpdateManySchema", "../schemas/updateMany" + name + ".schema"),
        ImportText(name + "UpsertSchema", "../schemas/upsertOne" + name + ".schema"),
        ImportText(name + "AggregateSchema", "../schemas/aggregate" + name + ".schema"),
        ImportText(name + "GroupBySchema", "../schemas/groupBy" + name + ".schema")
      ]
      + (if provider == "mongodb" then [
        ImportText(name + "FindRawObjectSchema", "../schemas/objects/" + name + "FindRaw.schema"),
        ImportText(name + "AggregateRawObjectSchema", "../schemas/objects/" + name + "AggregateRaw.schema")
      ] else [])
  {
    var lead := ["findUnique", "findFirst", "findMany", "createOne"];
    var cm: seq<string> := if hasCreateMany then ["createMany"] else [];
    var trail := ["deleteOne", "updateOne", "deleteMany", "updateMany", "upsertOne", "aggregate", "groupBy"];
    var raw: seq<string> := if provider == "mongodb" then RawOperations else [];
    assert ImportedOperations(hasCreateMany, provider) == lead + cm + trail + raw;
    LeadingImportLines(name);
    CreateManyImportLines(name);
    TrailingImportLines(name);
    RawImportLines(name);
    ImportLinesAppend(lead, cm, name);
    ImportLinesAppend(lead + cm, trail, name);
    ImportLinesAppend(lead + cm + trail, raw, name);
  }

  /**
   * A model router imports the validator of every known operation, except
   * `createMany` when the provider lacks it and the raw operations outside
   * MongoDB, and of nothing else.
   */
  lemma ImportedOperationsIff(hasCreateMany: bool, provider: string, opName: string)
    ensures opName in ImportedOperations(hasCreateMany, provider) <==>
      opName in KnownOperations
      && (opName == "createMany" ==> hasCreateMany)
      && (opName in RawOperations ==> provider == "mongodb")
  {
    var ops := ImportedOperations(hasCreateMany, provider);
    if opName in KnownOperations && (opName == "createMany" ==> hasCreateMany) && (opName in RawOperations ==> provider == "mongodb") {
      assert opName in QueryOperations || opName in MutationOperations;
    }
  }

  /** No validator is imported twice, and a model router has 11 to 14 imports. */
  lemma ImportedOperationsDistinct(hasCreateMany: bool, provider: string)
    ensures var ops := ImportedOperations(hasCreateMany, provider);
      |ops| == 11 + (if hasCreateMany then 1 else 0) + (if provider == "mongodb" then 2 else 0)
      && forall i, j :: 0 <= i < j < |ops| ==> ops[i] != ops[j]
  {
  }

  /** Each import line names the operation's validator, as the naming rule gives it. */
  lemma SchemaImportsNameValidators(name: string, hasCreateMany: bool, provider: string)
    ensures var ops := ImportedOperations(hasCreateMany, provider);
      var lines := SchemaImportLines(name, hasCreateMany, provider);
      |lines| == |ops|
      && forall i :: 0 <= i < |ops| ==>
        lines[i] == ImportText(ValidatorName(ops[i], name), SchemaModule(ops[i], name))
  {
    var ops := ImportedOperations(hasCreateMany, provider);
    var lines := SchemaImportLines(name, hasCreateMany, provider);
    forall i | 0 <= i < |ops|
      ensures lines[i] == ImportText(ValidatorName(ops[i], name), SchemaModule(ops[i], name))
    {
      InputTypeFollowsNamingRule(ops[i], name);
    }
  }

  /**
   * `generateRouterSchemaImports`: appends the validator imports of one model,
   * built step by step as the source does, as one statement joined by '\n'.
   */
  method GenerateRouterSchemaImports(sourceFile: SourceFile, name: string, hasCreateMany: bool, provider: string)
    modifies sourceFile
    ensures sourceFile.statements == old(sourceFile.statements)
      + [Code(JoinWith(SchemaImportLines(name, hasCreateMany, provider), "\n"))]
  {
    var statements := [
      ImportText(name + "FindUniqueSchema", "../schemas/findUnique" + name + ".schema"),
      ImportText(name + "FindFirstSchema", "../schemas/findFirst" + name + ".schema"),
      ImportText(name + "FindManySchema", "../schemas/findMany" + name + ".schema"),
      ImportText(name + "CreateOneSchema", "../schemas/createOne" + name + ".schema")
    ];
    ghost var leading := statements;
    ghost var createMany: seq<string> := [];
    if hasCreateMany {
      createMany := [ImportText(name + "CreateManySchema", "../schemas/createMany" + name + ".schema")];
      statements := statements + [
        ImportText(name + "CreateManySchema", "../schemas/createMany" + name + ".schema")
      ];
    }
    assert statements == leading + createMany;
    ghost var trailing := [
      ImportText(name + "DeleteOneSchema", "../schemas/deleteOne" + name + ".schema"),
      ImportText(name + "UpdateOneSchema", "../schemas/updateOne" + name + ".schema"),
      ImportText(name + "DeleteManySchema", "../schemas/deleteMany" + name + ".schema"),
      ImportText(name + "UpdateManySchema", "../schemas/updateMany" + name + ".schema"),
      ImportText(name + "UpsertSchema", "../schemas/upsertOne" + name + ".schema"),
      ImportText(name + "AggregateSchema", "../schemas/aggregate" + name + ".schema"),
      ImportText(name + "GroupBySchema", "../schemas/groupBy" + name + ".schema")
    ];
    statements := statements + [
      ImportText(name + "DeleteOneSchema", "../schemas/deleteOne" + name + ".schema"),
      ImportText(name + "UpdateOneSchema", "../schemas/updateOne" + name + ".schema"),
      ImportText(name + "DeleteManySchema", "../schemas/deleteMany" + name + ".schema"),
      ImportText(name + "UpdateManySchema", "../schemas/updateMany" + name + ".schema"),
      ImportText(name + "UpsertSchema", "../schemas/upsertOne" + name + ".schema"),
      ImportText(name + "AggregateSchema", "../schemas/aggregate" + name + ".schema"),
      ImportText(name + "GroupBySchema", "../schemas/groupBy" + name + ".schema")
    ];
    ghost var raw: seq<string> := [];
    if provider == "mongodb" {
      raw := [
        ImportText(name + "FindRawObjectSchema", "../schemas/objects/" + name + "FindRaw.schema"),
        ImportText(name + "AggregateRawObjectSchema", "../schemas/objects/" + name + "AggregateRaw.schema")
      ];
      statements := statements + [
        ImportText(name + "FindRawObjectSchema", "../schemas/objects/" + name + "FindRaw.schema"),
        ImportText(name + "AggregateRawObjectSchema", "../schemas/objects/" + name + "AggregateRaw.schema")
      ];
    }
    assert statements == leading + createMany + trailing + raw;
    SchemaImportSegments(name, hasCreateMany, provider);
    sourceFile.AddStatements(JoinWith(statements, "\n"));
  }
}
