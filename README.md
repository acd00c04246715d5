# CheckClasses of laravel-microscope, in Dafny

laravel-microscope is a static checker for Laravel applications. Its
`CheckClasses` component walks the PHP files of an application and does two
things:

- **checkImports** reads each class file's tokens and reports three kinds of
  problem. The first is string literals such as `'App\Jobs\Send@handle'`
  that name a class or method that does not exist. The second is qualified
  names used in the body that resolve to nothing. The third is `use`
  imports of names that are no class, interface or trait.
- **forNamespace** compares each class file's declared namespace with the
  namespace its path calls for, rewrites the file when they differ and
  reports a bad namespace.

Smaller helpers handle the rest:

- `hasOpeningTag` checks that a file starts with `<?php`.
- `fullNamespace` builds the qualified class name.
- `exists` is the import test.
- `migrationPaths` lists the normalized migration paths. Every file whose
  path starts with one of them is skipped.
- `calculateClassFromFile` turns a path into a class name.
- `doNamespaceCorrection` applies one rewrite and its report.

The model has seven modules:

- `Php`: PHP truthiness and the PHP built-ins behind the component.
  - The component itself calls `substr_count`, `trim` and `rtrim` with a
    character list, `explode` and `str_replace`.
  - `ltrim` appears only as the first half of `trim`.
  - `strpos`, `strrpos` and `substr_replace` are reached only inside
    Laravel's `Str::replaceFirst` and `Str::replaceLast`.
  - Nothing calls `implode`. It is there only as the inverse of `explode`
    in the round-trip lemma `ImplodeExplode`.
- `Str`: the Laravel `Str` helpers it calls (`startsWith`, `endsWith`,
  `replaceFirst`, `replaceLast`).
- `Tokens`: the token stream of `token_get_all`.
- `Symbols`: the class loader, as an oracle that answers `class_exists`,
  `interface_exists`, `trait_exists`, `function_exists` and `method_exists`.
- `Analyzers`: the collaborators whose code is not modelled, as arbitrary
  functions.
- `ErrorPrinter`: the shared reporter, as a class whose `errors` field
  collects the reports in order.
- `CheckClasses`: the component itself.

Each `foreach` of the source is a `method` with a `for` loop, proved
against a specification function of its inputs:

- For the four loops that report, the postcondition says the printer's
  reports gain exactly that function's value: `AtSignDiagnostics`,
  `ReferenceDiagnostics`, `ImportDiagnostics` and `ImportsRunDiagnostics`.
- The `forNamespace` loop returns `Corrections(...)`. The printer gains
  `BadNamespaceReports` of those corrections.
- The `migrationPaths` loop touches no printer. It returns `MigrationDirs`
  of the migrator's paths.

The lemmas say what those functions guarantee: which inputs are reported,
with which arguments, in which order, how many times, and which are never
reported.

One consequence of the code as written is proved rather than assumed.
`checkAtSignStrings` trims with the character list `'\'\"'`. In
single-quoted PHP that list holds the quote, the backslash and the double
quote. The trimmed text therefore never starts with a backslash, so with
`$onlyAbsClassPath = true` the scan reports nothing at all
(`CheckClasses.OnlyAbsClassPathReportsNothing`). The same trim means a
literal `'\App\X@m'` is looked up as `App\X`
(`CheckClasses.AtSignQuotedLiteral`).

## Model

| member | source | states |
|---|---|---|
| Php.Truthy | src/CheckClasses.php:44 | PHP's truth value of a string or null, as in `! $class` and `if ($currentNamespace)`: null, `""` and `"0"` are false and every other string is true |
| Php.CountChar | src/CheckClasses.php:231 | `substr_count` of a one-character needle: the number of positions holding it, never more than the length |
| Php.TrimLeft | src/CheckClasses.php:234 | the `ltrim` half of `trim`: no longer than its argument, and a non-empty result does not start with a character of the list |
| Php.TrimRight | src/CheckClasses.php:172 | `rtrim`: no longer than its argument, and a non-empty result does not end with a character of the list |
| Php.TrimLeftSuffix | src/CheckClasses.php:234 | `ltrim` keeps a suffix of its argument and every character it drops is in the list |
| Php.TrimRightDropped | src/CheckClasses.php:172 | every character `rtrim` drops is in the list |
| Php.TrimSurrounds | src/CheckClasses.php:234 | `trim` returns a middle segment of its argument; every character before and after that segment is in the list |
| Php.TrimLeftDrops | src/CheckClasses.php:234 | `ltrim` of a run of list characters followed by a string that does not start with one gives that string |
| Php.TrimRightDrops | src/CheckClasses.php:172 | `rtrim` of a string that does not end with a list character followed by a run of them gives that string |
| Php.TrimOf | src/CheckClasses.php:234 | conversely, a string wrapped in runs of list characters and with neither end in the list is exactly what `trim` leaves |
| Php.TrimLeftKeepsCount | src/CheckClasses.php:234 | `ltrim` keeps every occurrence of a character outside the list |
| Php.TrimRightKeepsCount | src/CheckClasses.php:234 | `rtrim` keeps every occurrence of a character outside the list |
| Php.CountCharZero | src/CheckClasses.php:231 | `substr_count(s, c)` is zero exactly when `c` does not occur in `s` |
| Php.CountCharAppend | src/CheckClasses.php:231 | the count of a character in a concatenation is the sum of the counts of the parts |
| Php.Trim | src/CheckClasses.php:234 | after `trim(s, chars)` neither end of a non-empty result is in `chars` |
| Php.TrimUntrimmed | src/CheckClasses.php:59 | a string whose ends are not in `chars` is left unchanged by `trim` |
| Php.TrimIdempotent | src/CheckClasses.php:59 | trimming twice gives the same result as trimming once |
| Php.TrimKeepsCount | src/CheckClasses.php:234 | trimming keeps every occurrence of a character outside the list, so the trimmed literal still has exactly one `@` |
| Php.TrimRightPrefix | src/CheckClasses.php:172 | `rtrim` returns a prefix of its argument |
| Php.Explode | src/CheckClasses.php:240 | `explode` on a one-character delimiter yields one more piece than there are delimiters |
| Php.ExplodePieces | src/CheckClasses.php:240 | no piece of an `explode` contains the delimiter |
| Php.ImplodeExplode | src/CheckClasses.php:240 | imploding the pieces of an `explode` gives back the original string |
| Php.ExplodeSplit | src/CheckClasses.php:240 | exploding `a + d + b` gives the pieces of `a` followed by the pieces of `b` |
| Php.ExplodeWithout | src/CheckClasses.php:240 | exploding a string without the delimiter gives that string alone |
| Php.FindFirst | src/CheckClasses.php:164 | `strpos` returns an offset where the needle occurs and no earlier offset has it; `None` means no offset has it |
| Php.FindLast | src/CheckClasses.php:167 | `strrpos` returns an offset where the needle occurs and no later offset has it; `None` means no offset has it |
| Php.SubstrReplace | src/CheckClasses.php:164 | `substr_replace(s, replace, pos, len)`, reached through `Str::replaceFirst`/`replaceLast`: the text before `pos` and after `pos + len` is kept, and the result is as long as `s` with `len` characters taken out and those of `replace` put in |
| Php.StrReplace | src/CheckClasses.php:169-172 | every character of the result comes from the subject or from the replacement |
| Php.StrReplaceRemovesChar | src/CheckClasses.php:169 | replacing a character by a string without it removes every occurrence of that character |
| Str.StartsWith | src/CheckClasses.php:148 | `Str::startsWith` with one needle: an empty needle never matches, otherwise the needle is a prefix of the haystack |
| Str.StartsWithAny | src/CheckClasses.php:104 | `Str::startsWith` with a list of needles: some needle of the list matches |
| Str.EndsWith | src/CheckClasses.php:99 | `Str::endsWith`: an empty needle never matches, otherwise the needle is a suffix of the haystack |
| Tokens.StartsWithOpenTag | src/CheckClasses.php:32 | `($tokens[0][0] ?? null) === T_OPEN_TAG`: the stream is not empty and its first token is a tagged open tag; a bare first token never matches |
| Tokens.IsStringLiteral | src/CheckClasses.php:231 | `$token[0] == T_CONSTANT_ENCAPSED_STRING`: a tagged token of the constant-string kind |
| Str.ReplaceFirst | src/CheckClasses.php:164 | an empty or absent search leaves the subject unchanged |
| Str.ReplaceFirstPrefix | src/CheckClasses.php:164 | removing a base path the subject starts with leaves the rest of the path |
| Str.ReplaceLast | src/CheckClasses.php:167 | an absent search leaves the subject unchanged |
| Str.ReplaceLastSuffix | src/CheckClasses.php:167 | removing `.php` from a path ending in it drops exactly that suffix |
| ErrorPrinter.ErrorPrinter.constructor | src/CheckClasses.php:61 | the shared printer starts with no reports |
| ErrorPrinter.ErrorPrinter.WrongUsedClassError | src/CheckClasses.php:61 | appends one unknown-class report with the given path, name and line, and changes nothing else |
| ErrorPrinter.ErrorPrinter.WrongMethodError | src/CheckClasses.php:250 | appends one unknown-method report, and changes nothing else |
| ErrorPrinter.ErrorPrinter.WrongImport | src/CheckClasses.php:179 | appends one wrong-import report, and changes nothing else |
| ErrorPrinter.ErrorPrinter.BadNamespace | src/CheckClasses.php:196 | appends one bad-namespace report, and changes nothing else |
| CheckClasses.FullNamespace | src/CheckClasses.php:217-226 | under a null, `""` or `"0"` namespace the name is the bare class; otherwise it is the namespace, a backslash and the class |
| CheckClasses.FullNamespaceSegments | src/CheckClasses.php:217-226 | under a truthy namespace, a class name without a backslash is the last segment after the namespace's own segments |
| CheckClasses.Exists | src/CheckClasses.php:184-187 | `exists($imp)`: true exactly when the name is no class, no interface and no trait; `function_exists` is not asked |
| CheckClasses.ImportDiagnostics | src/CheckClasses.php:177-181 | the wrong-import reports of a list of imports: one for each import that `exists` flags, with its name and line, in import order |
| CheckClasses.CheckImportedClassesExist | src/CheckClasses.php:175-182 | appends the wrong-import reports of the imports, in import order, to the printer |
| CheckClasses.ImportDiagnosticsCount | src/CheckClasses.php:177-181 | there are exactly as many reports as positions holding an import that `exists` flags, so an import listed twice is reported twice |
| CheckClasses.ImportDiagnosticsAppend | src/CheckClasses.php:177-181 | the reports for two import lists are those of the first followed by those of the second |
| CheckClasses.ImportDiagnosticsMember | src/CheckClasses.php:177-187 | a report is made exactly for each import that is no class, interface or trait, and it carries that import's name and line |
| CheckClasses.ImportDiagnosticsNone | src/CheckClasses.php:177-187 | there are no reports exactly when every imported name is a class, interface or trait |
| CheckClasses.ImportDiagnosticsIgnoreFunctions | src/CheckClasses.php:184-187 | the import test never consults `function_exists`: changing its answers changes no report |
| CheckClasses.Resolves | src/CheckClasses.php:60 | a name resolves when it is a class, a trait, an interface or a function |
| CheckClasses.LookupName | src/CheckClasses.php:59 | the name looked up for a reference is its raw name trimmed of backslashes at both ends |
| CheckClasses.ReferenceDiagnostic | src/CheckClasses.php:59-62 | one reference gives one unknown-class report, with its untrimmed name and line, when its trimmed name does not resolve, and none otherwise |
| CheckClasses.ReferenceDiagnostics | src/CheckClasses.php:58-63 | the reports of the references, reference by reference, in order |
| CheckClasses.Unresolved | src/CheckClasses.php:59-60 | a reference whose backslash-trimmed name is no class, trait, interface or function |
| CheckClasses.ReferenceDiagnosticsCount | src/CheckClasses.php:58-63 | there are exactly as many reports as positions holding an unresolved reference, so a reference listed twice is reported twice |
| CheckClasses.CheckNonImportedClasses | src/CheckClasses.php:58-63 | appends the unknown-class reports of the non-imported references, in order |
| CheckClasses.CheckNonImportedClass | src/CheckClasses.php:59-62 | one reference whose trimmed name is no class, trait, interface or function is reported once; any other gets no report |
| CheckClasses.ReferenceDiagnosticsAppend | src/CheckClasses.php:58-63 | the reports for two reference lists are those of the first followed by those of the second |
| CheckClasses.ReferenceDiagnosticsSound | src/CheckClasses.php:58-63 | every report comes from one of the references |
| CheckClasses.ReferenceDiagnosticsComplete | src/CheckClasses.php:58-63 | every reference's report is among the reports |
| CheckClasses.ReferenceDiagnosticsMember | src/CheckClasses.php:58-63 | a report is made exactly for each reference whose backslash-trimmed name does not resolve, and it carries the untrimmed name and the line |
| CheckClasses.ReferenceDiagnosticsNone | src/CheckClasses.php:58-63 | there are no reports exactly when every trimmed name resolves |
| CheckClasses.AtSignCallable | src/CheckClasses.php:231-244 | a literal is read as a callable only if it is a constant string token with exactly one `@` |
| CheckClasses.SplitCallableShape | src/CheckClasses.php:240-244 | a callable split from text with one `@` is that text cut at the `@`; neither part has an `@` and the class part has a backslash |
| CheckClasses.SplitCallableOf | src/CheckClasses.php:240-244 | conversely, outside absolute-only mode, text made of a class part with a backslash, an `@` and a method part splits into exactly those parts |
| CheckClasses.AtSignCallableTrimmed | src/CheckClasses.php:231-236 | a callable's text is the literal trimmed of quotes and backslashes; it is non-empty and neither end is a quote or a backslash |
| CheckClasses.AtSignCallableShape | src/CheckClasses.php:234-244 | a callable's text is its class part, an `@` and its method part; neither part has an `@` and the class part has a backslash |
| CheckClasses.AtSignCallableOf | src/CheckClasses.php:231-244 | a string literal with one `@` whose trimmed text has that shape is read as exactly that callable |
| CheckClasses.SplitCallable | src/CheckClasses.php:236-244 | the filters after the trim: in absolute-only mode the text must start with a backslash; the part before the `@` must hold a backslash |
| CheckClasses.AtSignDiagnostic | src/CheckClasses.php:246-252 | one token gets at most one report: never both an unknown class and an unknown method |
| CheckClasses.AtSignDiagnostics | src/CheckClasses.php:230-253 | the reports of the scan, token by token, in order |
| CheckClasses.AtSignReport | src/CheckClasses.php:246-252 | the reports a callable token can get: an unknown class with the raw text, or an unknown method with the trimmed text when the class exists |
| CheckClasses.CheckAtSignStrings | src/CheckClasses.php:228-254 | appends the reports of the at-sign scan, in token order, to the printer |
| CheckClasses.CheckAtSignString | src/CheckClasses.php:231-252 | one token gets its report, if any, and each filter that fails skips the token |
| CheckClasses.AtSignDiagnosticsSnoc | src/CheckClasses.php:230-253 | the scan of one more token appends that token's report |
| CheckClasses.OnlyAbsClassPathSkipsAll | src/CheckClasses.php:234-238 | in absolute-only mode no token is read as a callable, because the trimmed text never starts with a backslash |
| CheckClasses.OnlyAbsClassPathReportsNothing | src/CheckClasses.php:228-254 | in absolute-only mode the scan reports nothing |
| CheckClasses.AtSignDiagnosticsAppend | src/CheckClasses.php:230-253 | the scan of two token lists gives the reports of the first followed by those of the second |
| CheckClasses.AtSignDiagnosticsAtMostOnePerToken | src/CheckClasses.php:230-253 | the scan makes no more reports than there are tokens |
| CheckClasses.AtSignDiagnosticReport | src/CheckClasses.php:246-252 | one token's report is an unknown class with the raw text when the class is missing, or an unknown method with the trimmed text when only the method is missing |
| CheckClasses.AtSignDiagnosticsSound | src/CheckClasses.php:230-253 | every report of the scan is the report of one of its tokens |
| CheckClasses.AtSignDiagnosticsComplete | src/CheckClasses.php:230-253 | every token's report is among the reports of the scan |
| CheckClasses.AtSignDiagnosticsMember | src/CheckClasses.php:230-253 | a diagnostic is reported exactly when some token is reported with it |
| CheckClasses.QuotedCallableCount | src/CheckClasses.php:231 | a literal `'cls@meth'` or `"cls@meth"`, with any run of backslashes before the class, has exactly one `@` when its parts have none |
| CheckClasses.QuotedCallableTrim | src/CheckClasses.php:234 | trimming such a literal leaves `cls@meth`, without the quotes and the leading backslashes, when the parts' outer ends are not quotes or backslashes |
| CheckClasses.AtSignQuotedLiteral | src/CheckClasses.php:231-252 | such a literal, `'\App\X@m'` included, is read as the callable with class `App\X`; it is reported as an unknown class with its raw text when the class is missing, as an unknown method with the quote- and backslash-free text when only the method is missing, and not at all otherwise |
| CheckClasses.IsClassFile | src/CheckClasses.php:32-46 | a file is analyzed when its first token is an open tag and the class read from it is truthy |
| CheckClasses.FileDiagnostics | src/CheckClasses.php:32-71 | the reports for one file: none unless it is a class file, else its at-sign reports, then its reference reports, then its import reports |
| CheckClasses.ImportsRunDiagnostics | src/CheckClasses.php:26-80 | the reports of a run, file by file, in order |
| CheckClasses.CheckImports | src/CheckClasses.php:24-81 | appends, file by file, the reports of every class file to the printer |
| CheckClasses.CheckFileImports | src/CheckClasses.php:27-71 | one file gets its at-sign reports, then its reference reports, then its import reports; a file without an open tag or without a class gets none |
| CheckClasses.SkippedFileReportsNothing | src/CheckClasses.php:32-46 | a file that does not start with an open tag, or has no class name (null, `""` or `"0"`), gets no report |
| CheckClasses.FileDiagnosticsNameTheFile | src/CheckClasses.php:54-71 | every report about a file comes from a class file, names that file and is never a bad namespace |
| CheckClasses.ImportsRunReportsOnlyClassFiles | src/CheckClasses.php:24-81 | every report of a whole run names one of the files, and that file is a class file |
| CheckClasses.HasOpeningTag | src/CheckClasses.php:137-149 | true exactly when the file has at least five bytes and they are `<?php` (reading only the first 20 bytes gives the same answer) |
| CheckClasses.MigrationPaths | src/CheckClasses.php:199-209 | returns one normalized directory per migrator path, in order |
| CheckClasses.MigrationDirs | src/CheckClasses.php:204-206 | the migrator's paths, each normalized, in order |
| CheckClasses.NamespaceCandidate | src/CheckClasses.php:98-127 | a file is looked at when it is not a blade file, its path does not start with a normalized migration path (a string prefix, so `/db/migrations_old/X.php` is skipped when `/db/migrations` is a migration path), opens with `<?php`, and declares a truthy class whose parent is not `Migration` |
| CheckClasses.NamespaceCorrection | src/CheckClasses.php:98-133 | the gates of one pass in the source's order, then a correction with the file, its relative path and both namespaces when the current namespace is not strictly the correct one |
| CheckClasses.Corrections | src/CheckClasses.php:95-134 | the corrections of a run, file by file, in order |
| CheckClasses.BadNamespaceReport | src/CheckClasses.php:196 | the bad-namespace report of one correction, with the arguments in the order (relative path, correct, current) |
| CheckClasses.BadNamespaceReports | src/CheckClasses.php:196 | one bad-namespace report per correction, the k-th report being that of the k-th correction |
| CheckClasses.BadNamespaceReportsAppend | src/CheckClasses.php:196 | the bad-namespace reports of two correction lists are those of the first followed by those of the second |
| CheckClasses.DoNamespaceCorrection | src/CheckClasses.php:189-197 | records the rewrite with its file, relative path and both namespaces, and appends exactly one bad-namespace report with the same arguments |
| CheckClasses.ForNamespace | src/CheckClasses.php:93-135 | returns the corrections of the run, in file order, and appends one bad-namespace report for each |
| CheckClasses.ForNamespaceFile | src/CheckClasses.php:96-133 | one file is corrected as the specification function says, with one report if it is corrected and none otherwise |
| CheckClasses.NamespaceCorrectionSpec | src/CheckClasses.php:98-133 | a file is corrected exactly when it is a candidate and its namespace is not strictly equal to the correct one; the correction carries its path, relative path and both namespaces |
| CheckClasses.MigrationPrefixSkipped | src/CheckClasses.php:104 | any path that continues a normalized migration path is skipped and never corrected, sibling directories such as `/db/migrations_old` of `/db/migrations` included |
| CheckClasses.CorrectionIsStable | src/CheckClasses.php:129-133 | once a file declares the namespace it was corrected to, it is not corrected again |
| CheckClasses.CorrectionsMember | src/CheckClasses.php:95-134 | a correction is in the run's result exactly when one of the files yields it |
| CheckClasses.CorrectionsOnlyCandidates | src/CheckClasses.php:98-127 | no blade file, file whose path starts with a migration path, file without `<?php`, classless file or migration class is ever corrected |
| CheckClasses.CalculateClassFromFile | src/CheckClasses.php:162-173 | when the separator is not the backslash and the root namespace has no separator, the class name has no directory separator |

## Left out

- File system and lexer: `getRealPath`, `file_get_contents`, `fopen`/`fread`/`feof` and `token_get_all` are not modelled. A file is given as its real path, its bytes and its tokens. A file that cannot be opened is not modelled.
- HasOpeningTag: the `feof` test on a handle that has not been read yet is modelled as "the file is empty". Both paths return false for an empty file, so the result is the same.
- Tokens: the tokens are read twice (lines 29 and 52). This is modelled as one token sequence, assuming the file does not change in between.
- Collaborators: `GetClassProperties`, `ParseUseStatement`, `NamespaceCorrector::calculateCorrectNamespace` and `FilePath` are arbitrary functions of their arguments; their code is not part of this model.
- NamespaceCorrector::fix: the rewrite of the file is not modelled. `DoNamespaceCorrection` returns it as a `Correction` record instead.
- ForNamespace: `classFromFilePath` and a file's `content` are fixed for the whole run, so each path is assumed to occur once in the list of files. If a path occurred twice, the model would correct it twice. The source would read the rewritten file the second time and leave it alone, as `CorrectionIsStable` describes.
- Class loading: `class_exists` and the other lookups are an oracle with fixed answers for the whole run. Autoloading side effects and PHP's case-insensitive class names are up to the oracle.
- Events, the container and progress: the `event(...)` calls, the `app(...)` container lookups, `$fileCheckContract->onFileTap` and its truthiness test are left out. They make no report.
- Model relations: the `is_subclass_of(..., Model::class)` test and `ModelRelations::checkModelRelations` (lines 73-79) are left out; that code is not part of this model.
- ImportsRunDiagnostics: any reports `ModelRelations::checkModelRelations` (line 75) adds to the printer are not among them, so the postconditions of `CheckImports` and `CheckFileImports` cover only the reports made by the code modelled here.
- Console output: the printer's rendering of reports is not modelled. Only which report was made, with which arguments and in which order, is recorded.
- Unused class properties: `$type` and `$interfaces` are read from `GetClassProperties` but never used; only `$type` appears, as the `kind` field of `ClassDefinition`.
- CalculateClassFromFile: `DIRECTORY_SEPARATOR` is a parameter. No all-inputs reference definition is given beyond the separator property, because the result depends on where the base path and the `.php` suffix occur.
- Str helpers: `startsWith`, `endsWith`, `replaceFirst` and `replaceLast` follow Laravel's definitions. An empty needle never matches, and `replaceFirst` returns the subject for an empty search. `replaceLast` is not guarded, which makes no difference here because `.php` is never empty.
- Loop bodies: the bodies of the `foreach` loops in `checkImports`, `checkAtSignStrings`, the reference check and `forNamespace` are separate methods (`CheckFileImports`, `CheckAtSignString`, `CheckNonImportedClass`, `ForNamespaceFile`), called once per pass. Each `continue` becomes a `return`.
- Byte strings: PHP strings are modelled as sequences of characters, with no encoding.
