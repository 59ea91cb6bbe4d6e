/**
 * `getRelativePath`: the import path, with '/' separators, from the
 * generated `routers/helpers` directory to a module that lies either under
 * the output directory or beside the schema file.
 */
module RelativePath {
  import opened Wrappers
  import opened Strings
  import opened Paths

  /** `path.join(outputPath, 'routers', 'helpers')`: where the generated helpers live. */
  function HelpersDirectory(outputPath: string): string
  {
    Join([outputPath, "routers", "helpers"])
  }

  /**
   * `schemaPath.split(path.sep)` without its last piece, joined with '/':
   * the directory that holds the schema file.
   */
  function SchemaDirectory(schemaPath: string): string
  {
    var pieces := Split(schemaPath, '/');
    JoinWith(pieces[..|pieces| - 1], "/")
  }

  /**
   * `toPath`: `filePath` joined onto the output directory, or, for a module
   * outside the output directory, onto the schema file's directory. With
   * `isOutsideOutputPath` set, `schemaPath` must be given.
   */
  function TargetPath(outputPath: string, filePath: string, isOutsideOutputPath: bool, schemaPath: Option<string>): string
    requires isOutsideOutputPath ==> schemaPath.Some?
  {
    if isOutsideOutputPath then Join([SchemaDirectory(schemaPath.value), filePath])
    else Join([outputPath, filePath])
  }

  /** `.split(path.sep).join(path.posix.sep)` where the separator is '/': the text is unchanged. */
  function ToPosixSeparators(s: string): (r: string)
    ensures r == s
  {
    JoinSplit(s, '/');
    assert [('/')] == "/";
    JoinWith(Split(s, '/'), "/")
  }

  /**
   * `getRelativePath(outputPath, filePath, isOutsideOutputPath, schemaPath)`
   * run in the working directory `cwd`. The `path.relative` contract at
   * work: joining the helpers directory with the result resolves to the
   * target, and the result is never absolute.
   */
  function GetRelativePath(cwd: seq<string>, outputPath: string, filePath: string,
                           isOutsideOutputPath: bool, schemaPath: Option<string>): (r: string)
    requires isOutsideOutputPath ==> schemaPath.Some?
    ensures AllNames(cwd) ==>
      Resolve(cwd, Join([HelpersDirectory(outputPath), r]))
        == Resolve(cwd, TargetPath(outputPath, filePath, isOutsideOutputPath, schemaPath))
    ensures AllNames(cwd) ==> !StartsWith(r, "/")
  {
    var fromPath := HelpersDirectory(outputPath);
    var toPath := TargetPath(outputPath, filePath, isOutsideOutputPath, schemaPath);
    var r := ToPosixSeparators(Relative(cwd, fromPath, toPath));
    if AllNames(cwd) then
      RelativeRoundTrip(cwd, fromPath, toPath);
      RelativeShape(cwd, fromPath, toPath);
      r
    else r
  }

  // ---------------------------------------------------------------------
  // Properties

  /** The helpers directory is `routers/helpers` under where the output directory resolves. */
  lemma HelpersDirectoryResolves(cwd: seq<string>, outputPath: string)
    requires AllNames(cwd)
    ensures Resolve(cwd, HelpersDirectory(outputPath)) == Resolve(cwd, outputPath) + ["routers", "helpers"]
  {
    var args := [outputPath, "routers", "helpers"];
    assert args[1..] == ["routers", "helpers"] && args[1..][1..] == ["helpers"];
    var raw := JoinWith(NonEmpty(args), "/");
    ResolveNormalized(cwd, raw);
    if outputPath == "" {
      assert NonEmpty(["helpers"]) == ["helpers"];
      assert NonEmpty(args) == ["routers", "helpers"];
      HelpersUnderWorkingDirectory(cwd);
    } else {
      assert NonEmpty(args) == args;
      HelpersUnderOutput(cwd, outputPath);
    }
  }

  /** The text `routers/helpers` splits into its two names. */
  lemma HelpersSegments()
    ensures Split(JoinWith(["routers", "helpers"], "/"), '/') == ["routers", "helpers"]
    ensures AllNames(["routers", "helpers"])
  {
    assert IsName("routers") && IsName("helpers");
    SplitRendered(["routers", "helpers"]);
  }

  lemma HelpersUnderWorkingDirectory(cwd: seq<string>)
    requires AllNames(cwd)
    ensures Resolve(cwd, JoinWith(["routers", "helpers"], "/")) == Resolve(cwd, "") + ["routers", "helpers"]
  {
    HelpersSegments();
    ResolveEmpty(cwd);
    ResolveRelativeNames(cwd, ["routers", "helpers"]);
  }

  lemma HelpersUnderOutput(cwd: seq<string>, outputPath: string)
    requires AllNames(cwd) && outputPath != ""
    ensures Resolve(cwd, JoinWith([outputPath, "routers", "helpers"], "/"))
            == Resolve(cwd, outputPath) + ["routers", "helpers"]
  {
    var sub := JoinWith(["routers", "helpers"], "/");
    var raw := JoinWith([outputPath, "routers", "helpers"], "/");
    assert [outputPath, "routers", "helpers"][1..] == ["routers", "helpers"];
    assert raw == outputPath + ['/'] + sub;
    HelpersSegments();
    SplitAppend(outputPath, '/', sub);
    assert StartsWith(raw, "/") == StartsWith(outputPath, "/");
    var base := if StartsWith(outputPath, "/") then [] else cwd;
    FoldAppend(true, base, Split(outputPath, '/'), ["routers", "helpers"]);
    FoldNames(true, Resolve(cwd, outputPath), ["routers", "helpers"]);
  }

  /**
   * The schema directory and the schema file's name make up the schema path;
   * a schema path without '/' has the empty directory.
   */
  lemma SchemaDirectoryHoldsSchema(schemaPath: string)
    ensures var pieces := Split(schemaPath, '/');
            var fileName := pieces[|pieces| - 1];
            '/' !in fileName
            && (|pieces| >= 2 ==> SchemaDirectory(schemaPath) + "/" + fileName == schemaPath)
            && (|pieces| == 1 ==> SchemaDirectory(schemaPath) == "" && fileName == schemaPath)
  {
    var pieces := Split(schemaPath, '/');
    JoinSplit(schemaPath, '/');
    assert [('/')] == "/";
    if |pieces| >= 2 {
      JoinWithSnoc(pieces[..|pieces| - 1], pieces[|pieces| - 1], "/");
      assert pieces[..|pieces| - 1] + [pieces[|pieces| - 1]] == pieces;
    }
  }

  /**
   * The target resolves to `filePath` followed from the output directory or,
   * outside it, from the schema file's directory.
   */
  lemma TargetPathResolves(cwd: seq<string>, outputPath: string, filePath: string,
                           isOutsideOutputPath: bool, schemaPath: Option<string>)
    requires AllNames(cwd)
    requires isOutsideOutputPath ==> schemaPath.Some?
    ensures var dir := if isOutsideOutputPath then SchemaDirectory(schemaPath.value) else outputPath;
            Resolve(cwd, TargetPath(outputPath, filePath, isOutsideOutputPath, schemaPath)) ==
              if filePath == "" then Resolve(cwd, dir)
              else if dir == "" then Resolve(cwd, filePath)
              else Fold(true, Resolve(cwd, dir), Split(filePath, '/'))
  {
    var dir := if isOutsideOutputPath then SchemaDirectory(schemaPath.value) else outputPath;
    ResolveJoin(cwd, dir, filePath);
  }

  /**
   * The result is empty exactly when the target is the helpers directory,
   * and otherwise a '/'-separated list of `..` segments followed by names.
   */
  lemma GetRelativePathShape(cwd: seq<string>, outputPath: string, filePath: string,
                             isOutsideOutputPath: bool, schemaPath: Option<string>)
    requires AllNames(cwd)
    requires isOutsideOutputPath ==> schemaPath.Some?
    ensures var r := GetRelativePath(cwd, outputPath, filePath, isOutsideOutputPath, schemaPath);
            var f := Resolve(cwd, HelpersDirectory(outputPath));
            var t := Resolve(cwd, TargetPath(outputPath, filePath, isOutsideOutputPath, schemaPath));
            (r == "" <==> f == t)
            && (f != t ==> Split(r, '/') == RelativeSegments(f, t) && WellFormed(PathValue(false, Split(r, '/'))))
  {
    RelativeShape(cwd, HelpersDirectory(outputPath), TargetPath(outputPath, filePath, isOutsideOutputPath, schemaPath));
  }
}
