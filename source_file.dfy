/**
 * The slice of a ts-morph `SourceFile` the generator uses: an ordered list of
 * top-level statements to which import declarations and statement text are
 * added. Formatting and printing are not modelled.
 */
module SourceFiles {
  import opened Wrappers

  /** An import declaration: `import { a, b } from 'm'` or `import * as ns from 'm'`. */
  datatype ImportDeclaration = ImportDeclaration(
    moduleSpecifier: string,
    namedImports: seq<string>,
    namespaceImport: Option<string>)

  /** One top-level statement of a generated file. */
  datatype Statement =
    | Import(declaration: ImportDeclaration)
    | Code(text: string)

  /** A generated source file under construction. */
  class SourceFile {
    var statements: seq<Statement>

    constructor ()
      ensures statements == []
    {
      statements := [];
    }

    /** `sourceFile.addImportDeclaration(d)`. */
    method AddImportDeclaration(d: ImportDeclaration)
      modifies this
      ensures statements == old(statements) + [Import(d)]
    {
      statements := statements + [Import(d)];
    }

    /** `sourceFile.addStatements(text)`. */
    method AddStatements(text: string)
      modifies this
      ensures statements == old(statements) + [Code(text)]
    {
      statements := statements + [Code(text)];
    }
  }
}
