/** The collaborators of the checker whose source is not part of this model:
    GetClassProperties, ParseUseStatement, NamespaceCorrector and FilePath.
    Each is an arbitrary function of its arguments; the checker only relies
    on the shape of what they return. */
module Analyzers {
  import opened Php
  import opened Tokens

  /** The list `[$currentNamespace, $class, $type, $parent, ...]` that
      GetClassProperties returns; each entry is a string or null. */
  datatype ClassDefinition = ClassDefinition(
    namespace: Option<string>,
    name: Option<string>,
    kind: Option<string>,
    parent: Option<string>)

  /** One entry of ParseUseStatement::findClassReferences: a qualified name
      used in the body and not covered by an import, with its line. */
  datatype ClassReference = ClassReference(name: string, line: nat)

  /** One entry `[fqcn, line]` of ParseUseStatement::getUseStatementsByPath. */
  datatype UseStatement = UseStatement(name: string, line: nat)

  /** A file handed to the checker: its real path, the bytes it holds and
      the tokens PHP's lexer makes of them. */
  datatype SourceFile = SourceFile(realPath: string, content: string, tokens: seq<Token>)

  datatype Collaborators = Collaborators(
    // GetClassProperties::readClassDefinition($tokens)
    readClassDefinition: seq<Token> -> ClassDefinition,
    // GetClassProperties::fromFilePath($absFilePath)
    classFromFilePath: string -> ClassDefinition,
    // ParseUseStatement::findClassReferences($tokens, $absFilePath)
    findClassReferences: (seq<Token>, string) -> seq<ClassReference>,
    // ParseUseStatement::getUseStatementsByPath($namespacedClassName, $absFilePath)
    useStatementsByPath: (string, string) -> seq<UseStatement>,
    // FilePath::getRelativePath($absFilePath)
    relativePath: string -> string,
    // FilePath::normalize($path)
    normalize: string -> string,
    // NamespaceCorrector::calculateCorrectNamespace($relativePath, $composerPath, $composerNamespace)
    correctNamespace: (string, string, string) -> string)
}
