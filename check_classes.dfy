/** The decision logic of CheckClasses: which string literals, references
    and imports of a class file are reported as unresolved, in which order,
    and which files get their namespace corrected. Every loop of the source
    is a method that appends to the shared ErrorPrinter and is proved equal
    to a specification function over its inputs; the lemmas state what those
    functions promise. */
module CheckClasses {
  import opened Php
  import opened Str
  import opened Tokens
  import opened Symbols
  import opened Analyzers
  import opened ErrorPrinter

  /** The character list '\'\"' given to trim when reading a literal. It is
      single-quoted PHP, where only \' is an escape, so it holds three
      characters: the quote, the backslash and the double quote. */
  const QuoteChars: set<char> := {'\'', '\\', '"'}

  /** Sequence concatenation is associative. Dafny knows this; the lemma
      only hands the regrouping to the solver at the loop steps. */
  lemma AppendAssoc<T>(a: seq<T>, b: seq<T>, c: seq<T>)
    ensures (a + b) + c == a + (b + c)
  {
  }

  // ---------------------------------------------------------------------
  // fullNamespace

  /** The namespace-qualified class name: `ns\class` when the namespace is
      truthy, the bare class name when it is null, "" or "0". */
  function FullNamespace(currentNamespace: Option<string>, className: string): (r: string)
    ensures !Truthy(currentNamespace) ==> r == className
    ensures Truthy(currentNamespace) ==>
      && |r| == |currentNamespace.value| + 1 + |className|
      && IsPrefix(currentNamespace.value, r)
      && r[|currentNamespace.value|..] == "\\" + className
  {
    if Truthy(currentNamespace) then currentNamespace.value + "\\" + className else className
  }

  /** Under a truthy namespace, a class name without a separator is the
      last segment of the qualified name, after the namespace's own. */
  lemma FullNamespaceSegments(currentNamespace: Option<string>, className: string)
    requires Truthy(currentNamespace) && '\\' !in className
    ensures Explode('\\', FullNamespace(currentNamespace, className))
         == Explode('\\', currentNamespace.value) + [className]
  {
    ExplodeSplit('\\', currentNamespace.value, className);
    ExplodeWithout('\\', className);
  }

  // ---------------------------------------------------------------------
  // exists and checkImportedClassesExist

  /** `exists($imp)`: despite its name, true exactly when `imp` is neither a
      class, nor an interface, nor a trait. Functions are not consulted. */
  predicate Exists(o: Oracle, imp: string)
  {
    !o.classExists(imp) && !o.interfaceExists(imp) && !o.traitExists(imp)
  }

  /** The wrongImport reports for a list of use statements, in their order. */
  function ImportDiagnostics(absPath: string, imports: seq<UseStatement>, o: Oracle): seq<Diagnostic>
    decreases |imports|
  {
    if imports == [] then []
    else
      var last := imports[|imports| - 1];
      ImportDiagnostics(absPath, imports[..|imports| - 1], o)
        + (if Exists(o, last.name) then [WrongImport(absPath, last.name, last.line)] else [])
  }

  method CheckImportedClassesExist(printer: ErrorPrinter, imports: seq<UseStatement>, absPath: string, o: Oracle)
    modifies printer
    ensures printer.errors == old(printer.errors) + ImportDiagnostics(absPath, imports, o)
  {
    for i := 0 to |imports|
      invariant printer.errors == old(printer.errors) + ImportDiagnostics(absPath, imports[..i], o)
    {
      var imp := imports[i];
      assert imports[..i + 1][..i] == imports[..i];
      if Exists(o, imp.name) {
        printer.WrongImport(absPath, imp.name, imp.line);
      }
    }
    assert imports[..|imports|] == imports;
  }

  /** The reports for two lists of imports are those of the first, then
      those of the second: reports follow input order. */
  lemma {:induction false} ImportDiagnosticsAppend(absPath: string, a: seq<UseStatement>, b: seq<UseStatement>, o: Oracle)
    ensures ImportDiagnostics(absPath, a + b, o) == ImportDiagnostics(absPath, a, o) + ImportDiagnostics(absPath, b, o)
    decreases |b|
  {
    if b == [] {
      assert a + b == a;
    } else {
      assert (a + b)[..|a + b| - 1] == a + b[..|b| - 1];
      ImportDiagnosticsAppend(absPath, a, b[..|b| - 1], o);
    }
  }

  /** A wrongImport report is made exactly for the imports whose name is no
      class, interface or trait, carrying that import's name and line. */
  lemma {:induction false} ImportDiagnosticsMember(absPath: string, imports: seq<UseStatement>, o: Oracle, d: Diagnostic)
    ensures d in ImportDiagnostics(absPath, imports, o) <==>
      exists k :: 0 <= k < |imports| && Exists(o, imports[k].name)
        && d == WrongImport(absPath, imports[k].name, imports[k].line)
    decreases |imports|
  {
    if imports != [] {
      var front := imports[..|imports| - 1];
      ImportDiagnosticsMember(absPath, front, o, d);
      if exists k :: 0 <= k < |front| && Exists(o, front[k].name)
          && d == WrongImport(absPath, front[k].name, front[k].line) {
        var k :| 0 <= k < |front| && Exists(o, front[k].name)
          && d == WrongImport(absPath, front[k].name, front[k].line);
        assert imports[k] == front[k];
      }
      if exists k :: 0 <= k < |imports| && Exists(o, imports[k].name)
          && d == WrongImport(absPath, imports[k].name, imports[k].line) {
        var k :| 0 <= k < |imports| && Exists(o, imports[k].name)
          && d == WrongImport(absPath, imports[k].name, imports[k].line);
        if k < |front| {
          assert front[k] == imports[k];
        }
      }
    }
  }

  /** No import is reported exactly when every imported name is a class,
      interface or trait. */
  lemma {:induction false} ImportDiagnosticsNone(absPath: string, imports: seq<UseStatement>, o: Oracle)
    ensures ImportDiagnostics(absPath, imports, o) == [] <==>
      forall k :: 0 <= k < |imports| ==> !Exists(o, imports[k].name)
  {
    var ds := ImportDiagnostics(absPath, imports, o);
    if ds != [] {
      ImportDiagnosticsMember(absPath, imports, o, ds[0]);
    }
    forall k | 0 <= k < |imports| && Exists(o, imports[k].name)
      ensures ds != []
    {
      ImportDiagnosticsMember(absPath, imports, o, WrongImport(absPath, imports[k].name, imports[k].line));
    }
  }

  /** The import check never asks whether a function exists: changing the
      oracle's answers about functions changes no report. */
  lemma {:induction false} ImportDiagnosticsIgnoreFunctions(absPath: string, imports: seq<UseStatement>, o: Oracle, functionExists: string -> bool)
    ensures ImportDiagnostics(absPath, imports, o)
         == ImportDiagnostics(absPath, imports, o.(functionExists := functionExists))
    decreases |imports|
  {
    if imports != [] {
      ImportDiagnosticsIgnoreFunctions(absPath, imports[..|imports| - 1], o, functionExists);
    }
  }

  /** Counted: there is exactly one report per import `exists` flags, so an
      import listed twice is reported twice. */
  lemma {:induction false} ImportDiagnosticsCount(absPath: string, imports: seq<UseStatement>, o: Oracle)
    ensures |ImportDiagnostics(absPath, imports, o)| == |Flagged(imports, (imp: UseStatement) => Exists(o, imp.name))|
    decreases |imports|
  {
    var p := (imp: UseStatement) => Exists(o, imp.name);
    if imports == [] {
      assert Flagged(imports, p) == {};
    } else {
      var n := |imports| - 1;
      ImportDiagnosticsCount(absPath, imports[..n], o);
      FlaggedSnoc(imports, p);
      assert n !in Flagged(imports[..n], p);
    }
  }

  // ---------------------------------------------------------------------
  // The check of non-imported class references inside checkImports

  /** A name resolves when it is a class, a trait, an interface or a
      function. */
  predicate Resolves(o: Oracle, name: string)
  {
    o.classExists(name) || o.traitExists(name) || o.interfaceExists(name) || o.functionExists(name)
  }

  /** The name that is looked up for a reference: the raw name with the
      backslashes at both ends removed. */
  function LookupName(ref: ClassReference): string
  {
    Trim(ref.name, {'\\'})
  }

  /** The report for one non-imported reference, if its name does not
      resolve: the untrimmed name and its line. */
  function ReferenceDiagnostic(absPath: string, ref: ClassReference, o: Oracle): seq<Diagnostic>
  {
    if !Resolves(o, LookupName(ref)) then [WrongUsedClass(absPath, ref.name, ref.line)] else []
  }

  /** The wrongUsedClassError reports for the non-imported references, in
      their order. */
  function ReferenceDiagnostics(absPath: string, refs: seq<ClassReference>, o: Oracle): seq<Diagnostic>
    decreases |refs|
  {
    if refs == [] then []
    else ReferenceDiagnostics(absPath, refs[..|refs| - 1], o) + ReferenceDiagnostic(absPath, refs[|refs| - 1], o)
  }

  method CheckNonImportedClasses(printer: ErrorPrinter, refs: seq<ClassReference>, absPath: string, o: Oracle)
    modifies printer
    ensures printer.errors == old(printer.errors) + ReferenceDiagnostics(absPath, refs, o)
  {
    for i := 0 to |refs|
      invariant printer.errors == old(printer.errors) + ReferenceDiagnostics(absPath, refs[..i], o)
    {
      assert refs[..i + 1][..i] == refs[..i];
      AppendAssoc(old(printer.errors), ReferenceDiagnostics(absPath, refs[..i], o), ReferenceDiagnostic(absPath, refs[i], o));
      CheckNonImportedClass(printer, refs[i], absPath, o);
    }
    assert refs[..|refs|] == refs;
  }

  /** One pass of the loop over the non-imported references. */
  method CheckNonImportedClass(printer: ErrorPrinter, ref: ClassReference, absPath: string, o: Oracle)
    modifies printer
    ensures printer.errors == old(printer.errors) + ReferenceDiagnostic(absPath, ref, o)
  {
    var v := Trim(ref.name, {'\\'});
    if !o.classExists(v) && !o.traitExists(v) && !o.interfaceExists(v) && !o.functionExists(v) {
      printer.WrongUsedClassError(absPath, ref.name, ref.line);
    }
  }

  lemma {:induction false} ReferenceDiagnosticsAppend(absPath: string, a: seq<ClassReference>, b: seq<ClassReference>, o: Oracle)
    ensures ReferenceDiagnostics(absPath, a + b, o) == ReferenceDiagnostics(absPath, a, o) + ReferenceDiagnostics(absPath, b, o)
    decreases |b|
  {
    if b == [] {
      assert a + b == a;
    } else {
      assert (a + b)[..|a + b| - 1] == a + b[..|b| - 1];
      ReferenceDiagnosticsAppend(absPath, a, b[..|b| - 1], o);
      AppendAssoc(ReferenceDiagnostics(absPath, a, o), ReferenceDiagnostics(absPath, b[..|b| - 1], o),
        ReferenceDiagnostic(absPath, b[|b| - 1], o));
    }
  }

  /** Every report names a reference whose trimmed name does not resolve. */
  lemma {:induction false} ReferenceDiagnosticsSound(absPath: string, refs: seq<ClassReference>, o: Oracle, d: Diagnostic)
    requires d in ReferenceDiagnostics(absPath, refs, o)
    ensures exists k :: 0 <= k < |refs| && d in ReferenceDiagnostic(absPath, refs[k], o)
    decreases |refs|
  {
    var front := refs[..|refs| - 1];
    var last := ReferenceDiagnostic(absPath, refs[|refs| - 1], o);
    assert ReferenceDiagnostics(absPath, refs, o) == ReferenceDiagnostics(absPath, front, o) + last;
    if d in ReferenceDiagnostics(absPath, front, o) {
      ReferenceDiagnosticsSound(absPath, front, o, d);
      var k :| 0 <= k < |front| && d in ReferenceDiagnostic(absPath, front[k], o);
      assert refs[k] == front[k];
    } else {
      assert d in last;
    }
  }

  /** The report of every reference is among the reports. */
  lemma {:induction false} ReferenceDiagnosticsComplete(absPath: string, refs: seq<ClassReference>, k: int, o: Oracle, d: Diagnostic)
    requires 0 <= k < |refs| && d in ReferenceDiagnostic(absPath, refs[k], o)
    ensures d in ReferenceDiagnostics(absPath, refs, o)
    decreases |refs|
  {
    var front := refs[..|refs| - 1];
    if k < |front| {
      assert front[k] == refs[k];
      ReferenceDiagnosticsComplete(absPath, front, k, o, d);
    } else {
      assert k == |refs| - 1;
    }
  }

  /** A reference is reported exactly when its trimmed name does not
      resolve, and the report carries the untrimmed name and its line. */
  lemma {:induction false} ReferenceDiagnosticsMember(absPath: string, refs: seq<ClassReference>, o: Oracle, d: Diagnostic)
    ensures d in ReferenceDiagnostics(absPath, refs, o) <==>
      exists k :: 0 <= k < |refs| && !Resolves(o, LookupName(refs[k]))
        && d == WrongUsedClass(absPath, refs[k].name, refs[k].line)
  {
    if d in ReferenceDiagnostics(absPath, refs, o) {
      ReferenceDiagnosticsSound(absPath, refs, o, d);
      var k :| 0 <= k < |refs| && d in ReferenceDiagnostic(absPath, refs[k], o);
      assert !Resolves(o, LookupName(refs[k])) && d == WrongUsedClass(absPath, refs[k].name, refs[k].line);
    }
    if exists k :: 0 <= k < |refs| && !Resolves(o, LookupName(refs[k]))
        && d == WrongUsedClass(absPath, refs[k].name, refs[k].line) {
      var k :| 0 <= k < |refs| && !Resolves(o, LookupName(refs[k]))
        && d == WrongUsedClass(absPath, refs[k].name, refs[k].line);
      ReferenceDiagnosticsComplete(absPath, refs, k, o, d);
    }
  }

  /** No reference is reported exactly when every trimmed name resolves:
      known symbols never give a false positive. */
  lemma {:induction false} ReferenceDiagnosticsNone(absPath: string, refs: seq<ClassReference>, o: Oracle)
    ensures ReferenceDiagnostics(absPath, refs, o) == [] <==>
      forall k :: 0 <= k < |refs| ==> Resolves(o, LookupName(refs[k]))
  {
    var ds := ReferenceDiagnostics(absPath, refs, o);
    if ds != [] {
      ReferenceDiagnosticsMember(absPath, refs, o, ds[0]);
    }
    forall k | 0 <= k < |refs| && !Resolves(o, LookupName(refs[k]))
      ensures ds != []
    {
      ReferenceDiagnosticsMember(absPath, refs, o, WrongUsedClass(absPath, refs[k].name, refs[k].line));
    }
  }

  /** A reference whose trimmed name does not resolve. */
  predicate Unresolved(o: Oracle, ref: ClassReference)
  {
    !Resolves(o, LookupName(ref))
  }

  /** The positions of a list whose element is flagged by `p`. */
  function Flagged<T>(xs: seq<T>, p: T -> bool): set<nat>
  {
    set k: nat | k < |xs| && p(xs[k])
  }

  /** The flagged positions of a list are those of its front, plus the last
      position when the last element is flagged. */
  lemma FlaggedSnoc<T>(xs: seq<T>, p: T -> bool)
    requires xs != []
    ensures Flagged(xs, p)
         == Flagged(xs[..|xs| - 1], p) + (if p(xs[|xs| - 1]) then {|xs| - 1} else {})
  {
    var front := xs[..|xs| - 1];
    forall k: nat | k < |front|
      ensures front[k] == xs[k]
    {
    }
  }

  /** Counted: there is exactly one report per reference whose trimmed name
      does not resolve, so a reference listed twice is reported twice. */
  lemma {:induction false} ReferenceDiagnosticsCount(absPath: string, refs: seq<ClassReference>, o: Oracle)
    ensures |ReferenceDiagnostics(absPath, refs, o)| == |Flagged(refs, r => Unresolved(o, r))|
    decreases |refs|
  {
    var p := r => Unresolved(o, r);
    if refs == [] {
      assert Flagged(refs, p) == {};
    } else {
      var n := |refs| - 1;
      ReferenceDiagnosticsCount(absPath, refs[..n], o);
      FlaggedSnoc(refs, p);
      assert n !in Flagged(refs[..n], p);
      if Unresolved(o, refs[n]) {
        assert |ReferenceDiagnostic(absPath, refs[n], o)| == 1;
      } else {
        assert ReferenceDiagnostic(absPath, refs[n], o) == [];
      }
    }
  }

  // ---------------------------------------------------------------------
  // checkAtSignStrings

  /** What a literal 'Some\Class@method' is read as: the text without its
      surrounding quote characters, and its two halves around the `@`. */
  datatype Callable = Callable(trimmed: string, className: string, methodName: string)

  /** The filters of the scan, in the source's order: a constant string
      literal with exactly one `@`; then those of SplitCallable on its text
      trimmed of quotes and backslashes. */
  function AtSignCallable(t: Token, onlyAbsClassPath: bool): (r: Option<Callable>)
    ensures r.Some? ==> IsStringLiteral(t) && CountChar(t.text, '@') == 1
  {
    if !IsStringLiteral(t) || CountChar(t.text, '@') != 1 then None
    else
      TrimKeepsCount(t.text, QuoteChars, '@');
      SplitCallable(Trim(t.text, QuoteChars), onlyAbsClassPath)
  }

  /** The filters on the trimmed text: in absolute-only mode it must start
      with a backslash; the class part before the `@` must hold one. */
  function SplitCallable(trimmed: string, onlyAbsClassPath: bool): (r: Option<Callable>)
    requires CountChar(trimmed, '@') == 1
  {
    if onlyAbsClassPath && trimmed[0] != '\\' then None
    else
      var parts := Explode('@', trimmed);
      if CountChar(parts[0], '\\') <= 0 then None
      else Some(Callable(trimmed, parts[0], parts[1]))
  }

  /** The report for one token, if any: an unknown class is reported with
      the raw literal, quotes included; a known class without the method is
      reported with the trimmed text. */
  function AtSignDiagnostic(absPath: string, t: Token, onlyAbsClassPath: bool, o: Oracle): (ds: seq<Diagnostic>)
    ensures |ds| <= 1
  {
    match AtSignCallable(t, onlyAbsClassPath)
    case None => []
    case Some(c) =>
      if !o.classExists(c.className) then [WrongUsedClass(absPath, t.text, t.line)]
      else if !o.methodExists(c.className, c.methodName) then [WrongMethod(absPath, c.trimmed, t.line)]
      else []
  }

  /** The reports of the scan over a token stream, in token order. */
  function AtSignDiagnostics(absPath: string, tokens: seq<Token>, onlyAbsClassPath: bool, o: Oracle): seq<Diagnostic>
    decreases |tokens|
  {
    if tokens == [] then []
    else
      AtSignDiagnostics(absPath, tokens[..|tokens| - 1], onlyAbsClassPath, o)
        + AtSignDiagnostic(absPath, tokens[|tokens| - 1], onlyAbsClassPath, o)
  }

  method CheckAtSignStrings(printer: ErrorPrinter, tokens: seq<Token>, absFilePath: string, o: Oracle, onlyAbsClassPath: bool)
    modifies printer
    ensures printer.errors == old(printer.errors) + AtSignDiagnostics(absFilePath, tokens, onlyAbsClassPath, o)
  {
    for i := 0 to |tokens|
      invariant printer.errors == old(printer.errors) + AtSignDiagnostics(absFilePath, tokens[..i], onlyAbsClassPath, o)
    {
      AtSignDiagnosticsSnoc(absFilePath, tokens, i, onlyAbsClassPath, o);
      AppendAssoc(old(printer.errors), AtSignDiagnostics(absFilePath, tokens[..i], onlyAbsClassPath, o),
        AtSignDiagnostic(absFilePath, tokens[i], onlyAbsClassPath, o));
      CheckAtSignString(printer, tokens[i], absFilePath, o, onlyAbsClassPath);
    }
    assert tokens[..|tokens|] == tokens;
  }

  /** One pass of the loop of checkAtSignStrings: each `return` is one of
      its `continue`s. */
  method CheckAtSignString(printer: ErrorPrinter, token: Token, absFilePath: string, o: Oracle, onlyAbsClassPath: bool)
    modifies printer
    ensures printer.errors == old(printer.errors) + AtSignDiagnostic(absFilePath, token, onlyAbsClassPath, o)
  {
    if !token.Tagged? || token.kind != ConstantEncapsedString || CountChar(token.text, '@') != 1 {
      return;
    }
    var trimmed := Trim(token.text, QuoteChars);
    TrimKeepsCount(token.text, QuoteChars, '@');
    if onlyAbsClassPath && trimmed[0] != '\\' {
      return;
    }
    var parts := Explode('@', trimmed);
    var className, methodName := parts[0], parts[1];
    if CountChar(className, '\\') <= 0 {
      return;
    }
    if !o.classExists(className) {
      printer.WrongUsedClassError(absFilePath, token.text, token.line);
    } else if !o.methodExists(className, methodName) {
      printer.WrongMethodError(absFilePath, trimmed, token.line);
    }
  }

  lemma AtSignDiagnosticsSnoc(absPath: string, tokens: seq<Token>, i: nat, onlyAbsClassPath: bool, o: Oracle)
    requires i < |tokens|
    ensures AtSignDiagnostics(absPath, tokens[..i + 1], onlyAbsClassPath, o)
         == AtSignDiagnostics(absPath, tokens[..i], onlyAbsClassPath, o) + AtSignDiagnostic(absPath, tokens[i], onlyAbsClassPath, o)
  {
    assert tokens[..i + 1][..i] == tokens[..i];
  }

  /** A callable split from a text with one `@` is that text cut at the
      `@`, neither part holding an `@` and the class part holding a
      backslash. */
  lemma SplitCallableShape(trimmed: string, onlyAbsClassPath: bool)
    requires CountChar(trimmed, '@') == 1 && SplitCallable(trimmed, onlyAbsClassPath).Some?
    ensures var c := SplitCallable(trimmed, onlyAbsClassPath).value;
      && c.trimmed == trimmed && trimmed == c.className + "@" + c.methodName
      && '@' !in c.className && '@' !in c.methodName && '\\' in c.className
  {
    var parts := Explode('@', trimmed);
    ExplodePieces('@', trimmed);
    ImplodeExplode('@', trimmed);
    CountCharZero(parts[0], '\\');
    assert trimmed == parts[0] + "@" + parts[1];
  }

  /** Conversely, outside absolute-only mode a text cut at its one `@` into
      a class part with a backslash and a method part splits into exactly
      those parts. */
  lemma SplitCallableOf(trimmed: string, className: string, methodName: string)
    requires CountChar(trimmed, '@') == 1 && trimmed == className + "@" + methodName
    requires '@' !in className && '\\' in className
    ensures SplitCallable(trimmed, false) == Some(Callable(trimmed, className, methodName))
  {
    ExplodeSplit('@', className, methodName);
    ExplodeWithout('@', className);
    CountCharAppend(className + "@", methodName, '@');
    CountCharAppend(className, "@", '@');
    CountCharZero(className, '@');
    CountCharZero(methodName, '@');
    CountCharZero(className, '\\');
    ExplodeWithout('@', methodName);
    assert className + "@" + methodName == className + ['@'] + methodName;
  }

  /** What a callable read from a token is: the token is a string literal
      with one `@`, and the callable's text is the token's text trimmed of
      quotes and backslashes, which neither starts nor ends with one. */
  lemma AtSignCallableTrimmed(t: Token, onlyAbsClassPath: bool)
    requires AtSignCallable(t, onlyAbsClassPath).Some?
    ensures var c := AtSignCallable(t, onlyAbsClassPath).value;
      && IsStringLiteral(t) && CountChar(t.text, '@') == 1
      && c.trimmed == Trim(t.text, QuoteChars) && CountChar(c.trimmed, '@') == 1
      && c.trimmed[0] !in QuoteChars && c.trimmed[|c.trimmed| - 1] !in QuoteChars
  {
    TrimKeepsCount(t.text, QuoteChars, '@');
  }

  /** ... and that text is the class part, the `@` and the method part,
      neither part holding an `@` and the class part holding a backslash. */
  lemma AtSignCallableShape(t: Token, onlyAbsClassPath: bool)
    requires AtSignCallable(t, onlyAbsClassPath).Some?
    ensures var c := AtSignCallable(t, onlyAbsClassPath).value;
      && c.trimmed == c.className + "@" + c.methodName
      && '@' !in c.className && '@' !in c.methodName && '\\' in c.className
  {
    var trimmed := Trim(t.text, QuoteChars);
    TrimKeepsCount(t.text, QuoteChars, '@');
    assert AtSignCallable(t, onlyAbsClassPath) == SplitCallable(trimmed, onlyAbsClassPath);
    SplitCallableShape(trimmed, onlyAbsClassPath);
  }

  /** Conversely, a string literal with one `@` whose trimmed text is a
      class part with a backslash and no `@`, an `@` and a method part is
      read as exactly that callable. */
  lemma AtSignCallableOf(t: Token, className: string, methodName: string)
    requires IsStringLiteral(t) && CountChar(t.text, '@') == 1
    requires Trim(t.text, QuoteChars) == className + "@" + methodName
    requires '@' !in className && '\\' in className
    ensures AtSignCallable(t, false) == Some(Callable(className + "@" + methodName, className, methodName))
  {
    TrimKeepsCount(t.text, QuoteChars, '@');
    SplitCallableOf(Trim(t.text, QuoteChars), className, methodName);
  }

  /** In absolute-only mode no token is ever read as a callable: the trim
      character list includes the backslash, so a trimmed text never starts
      with one. */
  lemma OnlyAbsClassPathSkipsAll(t: Token)
    ensures AtSignCallable(t, true) == None
  {
    if IsStringLiteral(t) && CountChar(t.text, '@') == 1 {
      TrimKeepsCount(t.text, QuoteChars, '@');
    }
  }

  /** Hence the scan in absolute-only mode reports nothing at all. */
  lemma {:induction false} OnlyAbsClassPathReportsNothing(absPath: string, tokens: seq<Token>, o: Oracle)
    ensures AtSignDiagnostics(absPath, tokens, true, o) == []
    decreases |tokens|
  {
    if tokens != [] {
      OnlyAbsClassPathSkipsAll(tokens[|tokens| - 1]);
      OnlyAbsClassPathReportsNothing(absPath, tokens[..|tokens| - 1], o);
    }
  }

  lemma {:induction false} AtSignDiagnosticsAppend(absPath: string, a: seq<Token>, b: seq<Token>, onlyAbsClassPath: bool, o: Oracle)
    ensures AtSignDiagnostics(absPath, a + b, onlyAbsClassPath, o)
         == AtSignDiagnostics(absPath, a, onlyAbsClassPath, o) + AtSignDiagnostics(absPath, b, onlyAbsClassPath, o)
    decreases |b|
  {
    if b == [] {
      assert a + b == a;
    } else {
      var front := b[..|b| - 1];
      var last := AtSignDiagnostic(absPath, b[|b| - 1], onlyAbsClassPath, o);
      assert (a + b)[..|a + b| - 1] == a + front;
      assert (a + b)[|a + b| - 1] == b[|b| - 1];
      assert AtSignDiagnostics(absPath, a + b, onlyAbsClassPath, o)
          == AtSignDiagnostics(absPath, a + front, onlyAbsClassPath, o) + last;
      AtSignDiagnosticsAppend(absPath, a, front, onlyAbsClassPath, o);
      AppendAssoc(AtSignDiagnostics(absPath, a, onlyAbsClassPath, o), AtSignDiagnostics(absPath, front, onlyAbsClassPath, o), last);
    }
  }

  /** Since a token gets at most one report, never both an unknown class
      and an unknown method, the scan makes no more reports than there are
      tokens. */
  lemma {:induction false} AtSignDiagnosticsAtMostOnePerToken(absPath: string, tokens: seq<Token>, onlyAbsClassPath: bool, o: Oracle)
    ensures |AtSignDiagnostics(absPath, tokens, onlyAbsClassPath, o)| <= |tokens|
    decreases |tokens|
  {
    if tokens != [] {
      AtSignDiagnosticsAtMostOnePerToken(absPath, tokens[..|tokens| - 1], onlyAbsClassPath, o);
    }
  }

  /** The at-sign check, whose class and method are known to the oracle,
      reports a callable token either as an unknown class (raw text) or, when
      the class exists, as an unknown method (trimmed text); and nothing else
      is reported. */
  predicate AtSignReport(absPath: string, t: Token, onlyAbsClassPath: bool, o: Oracle, d: Diagnostic)
  {
    match AtSignCallable(t, onlyAbsClassPath)
    case None => false
    case Some(c) =>
      || (!o.classExists(c.className) && d == WrongUsedClass(absPath, t.text, t.line))
      || (o.classExists(c.className) && !o.methodExists(c.className, c.methodName)
          && d == WrongMethod(absPath, c.trimmed, t.line))
  }

  lemma AtSignDiagnosticReport(absPath: string, t: Token, onlyAbsClassPath: bool, o: Oracle, d: Diagnostic)
    ensures d in AtSignDiagnostic(absPath, t, onlyAbsClassPath, o) <==> AtSignReport(absPath, t, onlyAbsClassPath, o, d)
  {
    var r := AtSignCallable(t, onlyAbsClassPath);
    if r.Some? {
      assert AtSignDiagnostic(absPath, t, onlyAbsClassPath, o)
          == if !o.classExists(r.value.className) then [WrongUsedClass(absPath, t.text, t.line)]
             else if !o.methodExists(r.value.className, r.value.methodName) then [WrongMethod(absPath, r.value.trimmed, t.line)]
             else [];
    }
  }

  /** Every report of the scan is the report of one of its tokens. */
  lemma {:induction false} AtSignDiagnosticsSound(absPath: string, tokens: seq<Token>, onlyAbsClassPath: bool, o: Oracle, d: Diagnostic)
    requires d in AtSignDiagnostics(absPath, tokens, onlyAbsClassPath, o)
    ensures exists k :: 0 <= k < |tokens| && AtSignReport(absPath, tokens[k], onlyAbsClassPath, o, d)
    decreases |tokens|
  {
    var front := tokens[..|tokens| - 1];
    var last := tokens[|tokens| - 1];
    if d in AtSignDiagnostics(absPath, front, onlyAbsClassPath, o) {
      AtSignDiagnosticsSound(absPath, front, onlyAbsClassPath, o, d);
      var k :| 0 <= k < |front| && AtSignReport(absPath, front[k], onlyAbsClassPath, o, d);
      assert tokens[k] == front[k];
    } else {
      AtSignDiagnosticReport(absPath, last, onlyAbsClassPath, o, d);
      assert AtSignReport(absPath, tokens[|tokens| - 1], onlyAbsClassPath, o, d);
    }
  }

  /** The report of every token is among the reports of the scan. */
  lemma {:induction false} AtSignDiagnosticsComplete(absPath: string, tokens: seq<Token>, k: int, onlyAbsClassPath: bool, o: Oracle, d: Diagnostic)
    requires 0 <= k < |tokens| && d in AtSignDiagnostic(absPath, tokens[k], onlyAbsClassPath, o)
    ensures d in AtSignDiagnostics(absPath, tokens, onlyAbsClassPath, o)
    decreases |tokens|
  {
    var front := tokens[..|tokens| - 1];
    if k < |front| {
      assert front[k] == tokens[k];
      AtSignDiagnosticsComplete(absPath, front, k, onlyAbsClassPath, o, d);
    } else {
      assert k == |tokens| - 1;
    }
  }

  /** A diagnostic is reported by the scan exactly when some token is
      reported with it. */
  lemma {:induction false} AtSignDiagnosticsMember(absPath: string, tokens: seq<Token>, onlyAbsClassPath: bool, o: Oracle, d: Diagnostic)
    ensures d in AtSignDiagnostics(absPath, tokens, onlyAbsClassPath, o) <==>
      exists k :: 0 <= k < |tokens| && AtSignReport(absPath, tokens[k], onlyAbsClassPath, o, d)
  {
    if d in AtSignDiagnostics(absPath, tokens, onlyAbsClassPath, o) {
      AtSignDiagnosticsSound(absPath, tokens, onlyAbsClassPath, o, d);
    }
    if exists k :: 0 <= k < |tokens| && AtSignReport(absPath, tokens[k], onlyAbsClassPath, o, d) {
      var k :| 0 <= k < |tokens| && AtSignReport(absPath, tokens[k], onlyAbsClassPath, o, d);
      AtSignDiagnosticReport(absPath, tokens[k], onlyAbsClassPath, o, d);
      AtSignDiagnosticsComplete(absPath, tokens, k, onlyAbsClassPath, o, d);
    }
  }

  /** The text of a quoted literal `'cls@meth'` or `"cls@meth"`, with any
      run of backslashes in front of the class, holds exactly one `@`. */
  lemma QuotedCallableCount(quote: char, slashes: string, className: string, methodName: string)
    requires quote == '\'' || quote == '"'
    requires forall i :: 0 <= i < |slashes| ==> slashes[i] == '\\'
    requires '@' !in className && '@' !in methodName
    ensures CountChar([quote] + slashes + className + "@" + methodName + [quote], '@') == 1
  {
    var front := [quote] + slashes + className;
    var back := methodName + [quote];
    assert [quote] + slashes + className + "@" + methodName + [quote] == (front + "@") + back;
    assert '@' !in front;
    CountCharAppend(front + "@", back, '@');
    CountCharAppend(front, "@", '@');
    CountCharZero(front, '@');
    CountCharZero(back, '@');
  }

  /** Trimming such a literal leaves `cls@meth`: the quotes and the leading
      backslashes are all in the trim list. */
  lemma QuotedCallableTrim(quote: char, slashes: string, className: string, methodName: string)
    requires quote == '\'' || quote == '"'
    requires forall i :: 0 <= i < |slashes| ==> slashes[i] == '\\'
    requires className != [] && className[0] !in QuoteChars
    requires methodName != [] && methodName[|methodName| - 1] !in QuoteChars
    ensures Trim([quote] + slashes + className + "@" + methodName + [quote], QuoteChars) == className + "@" + methodName
  {
    var inner := className + "@" + methodName;
    assert [quote] + slashes + className + "@" + methodName + [quote] == ([quote] + slashes) + inner + [quote];
    TrimOf([quote] + slashes, inner, [quote], QuoteChars);
  }

  /** A literal `'Some\Class@method'`, `"Some\Class@method"` or one with
      leading backslashes such as `'\App\X@m'` is read as the callable
      with class `Some\Class` (resp. `App\X`): the leading backslashes are
      trimmed away. It is reported as an unknown class, with the literal's
      raw text, when the class does not exist; as an unknown method, with
      the text trimmed of quotes and leading backslashes, when the class
      exists without the method; and not at all otherwise. */
  lemma AtSignQuotedLiteral(absPath: string, quote: char, slashes: string, className: string, methodName: string, line: nat, o: Oracle)
    requires quote == '\'' || quote == '"'
    requires forall i :: 0 <= i < |slashes| ==> slashes[i] == '\\'
    requires '@' !in className && '@' !in methodName && '\\' in className
    requires className[0] !in QuoteChars && methodName != [] && methodName[|methodName| - 1] !in QuoteChars
    ensures var text := [quote] + slashes + className + "@" + methodName + [quote];
      AtSignCallable(Tagged(ConstantEncapsedString, text, line), false)
        == Some(Callable(className + "@" + methodName, className, methodName))
    ensures var text := [quote] + slashes + className + "@" + methodName + [quote];
      var ds := AtSignDiagnostic(absPath, Tagged(ConstantEncapsedString, text, line), false, o);
      && (!o.classExists(className) ==> ds == [WrongUsedClass(absPath, text, line)])
      && (o.classExists(className) && !o.methodExists(className, methodName) ==>
            ds == [WrongMethod(absPath, className + "@" + methodName, line)])
      && (o.classExists(className) && o.methodExists(className, methodName) ==> ds == [])
  {
    var text := [quote] + slashes + className + "@" + methodName + [quote];
    QuotedCallableCount(quote, slashes, className, methodName);
    QuotedCallableTrim(quote, slashes, className, methodName);
    AtSignCallableOf(Tagged(ConstantEncapsedString, text, line), className, methodName);
  }

  // ---------------------------------------------------------------------
  // checkImports

  /** Whether checkImports analyzes the file: its first token is an open tag
      and the class read from it is truthy. */
  predicate IsClassFile(file: SourceFile, an: Collaborators)
  {
    StartsWithOpenTag(file.tokens) && Truthy(an.readClassDefinition(file.tokens).name)
  }

  /** The reports checkImports makes for one file: the at-sign literals,
      then the non-imported references, then the imports of the class. */
  function FileDiagnostics(file: SourceFile, o: Oracle, an: Collaborators): seq<Diagnostic>
  {
    if !StartsWithOpenTag(file.tokens) then []
    else
      var def := an.readClassDefinition(file.tokens);
      if !Truthy(def.name) then []
      else
        var refs := an.findClassReferences(file.tokens, file.realPath);
        var imports := an.useStatementsByPath(FullNamespace(def.namespace, def.name.value), file.realPath);
        AtSignDiagnostics(file.realPath, file.tokens, false, o)
          + ReferenceDiagnostics(file.realPath, refs, o)
          + ImportDiagnostics(file.realPath, imports, o)
  }

  /** The reports of checkImports over a list of files, file by file. */
  function ImportsRunDiagnostics(files: seq<SourceFile>, o: Oracle, an: Collaborators): seq<Diagnostic>
    decreases |files|
  {
    if files == [] then []
    else ImportsRunDiagnostics(files[..|files| - 1], o, an) + FileDiagnostics(files[|files| - 1], o, an)
  }

  method CheckImports(printer: ErrorPrinter, files: seq<SourceFile>, o: Oracle, an: Collaborators)
    modifies printer
    ensures printer.errors == old(printer.errors) + ImportsRunDiagnostics(files, o, an)
  {
    for i := 0 to |files|
      invariant printer.errors == old(printer.errors) + ImportsRunDiagnostics(files[..i], o, an)
    {
      assert files[..i + 1][..i] == files[..i];
      AppendAssoc(old(printer.errors), ImportsRunDiagnostics(files[..i], o, an), FileDiagnostics(files[i], o, an));
      CheckFileImports(printer, files[i], o, an);
    }
    assert files[..|files|] == files;
  }

  /** One pass of the loop of checkImports. */
  method CheckFileImports(printer: ErrorPrinter, classFilePath: SourceFile, o: Oracle, an: Collaborators)
    modifies printer
    ensures printer.errors == old(printer.errors) + FileDiagnostics(classFilePath, o, an)
  {
    var absFilePath := classFilePath.realPath;
    var tokens := classFilePath.tokens;
    if !StartsWithOpenTag(tokens) {
      return;
    }
    var def := an.readClassDefinition(tokens);
    if !Truthy(def.name) {
      return;
    }
    CheckAtSignStrings(printer, tokens, absFilePath, o, false);
    ghost var atSign := AtSignDiagnostics(absFilePath, tokens, false, o);
    var nonImportedClasses := an.findClassReferences(tokens, absFilePath);
    CheckNonImportedClasses(printer, nonImportedClasses, absFilePath, o);
    ghost var references := ReferenceDiagnostics(absFilePath, nonImportedClasses, o);
    AppendAssoc(old(printer.errors), atSign, references);
    var namespacedClassName := FullNamespace(def.namespace, def.name.value);
    var imports := an.useStatementsByPath(namespacedClassName, absFilePath);
    CheckImportedClassesExist(printer, imports, absFilePath, o);
    AppendAssoc(old(printer.errors), atSign + references, ImportDiagnostics(absFilePath, imports, o));
  }

  /** A file that is not a class file is skipped without a report. */
  lemma SkippedFileReportsNothing(file: SourceFile, o: Oracle, an: Collaborators)
    requires !IsClassFile(file, an)
    ensures FileDiagnostics(file, o, an) == []
  {
  }

  /** Every report about a file names that file, and each is an unknown
      class, an unknown method or an unknown import. */
  lemma FileDiagnosticsNameTheFile(file: SourceFile, o: Oracle, an: Collaborators, d: Diagnostic)
    requires d in FileDiagnostics(file, o, an)
    ensures IsClassFile(file, an)
    ensures !d.BadNamespace? && d.absPath == file.realPath
  {
    var def := an.readClassDefinition(file.tokens);
    var refs := an.findClassReferences(file.tokens, file.realPath);
    var imports := an.useStatementsByPath(FullNamespace(def.namespace, def.name.value), file.realPath);
    if d in AtSignDiagnostics(file.realPath, file.tokens, false, o) {
      AtSignDiagnosticsMember(file.realPath, file.tokens, false, o, d);
    } else if d in ReferenceDiagnostics(file.realPath, refs, o) {
      ReferenceDiagnosticsMember(file.realPath, refs, o, d);
    } else {
      ImportDiagnosticsMember(file.realPath, imports, o, d);
    }
  }

  /** Over a whole run, every report is about one of the files and that
      file is a class file: files without an open tag or without a class
      never produce a report. */
  lemma {:induction false} ImportsRunReportsOnlyClassFiles(files: seq<SourceFile>, o: Oracle, an: Collaborators, d: Diagnostic)
    requires d in ImportsRunDiagnostics(files, o, an)
    ensures exists k :: 0 <= k < |files| && IsClassFile(files[k], an) && !d.BadNamespace? && d.absPath == files[k].realPath
    decreases |files|
  {
    var front := files[..|files| - 1];
    var last := files[|files| - 1];
    if d in ImportsRunDiagnostics(front, o, an) {
      ImportsRunReportsOnlyClassFiles(front, o, an, d);
      var k :| 0 <= k < |front| && IsClassFile(front[k], an) && !d.BadNamespace? && d.absPath == front[k].realPath;
      assert files[k] == front[k];
    } else {
      FileDiagnosticsNameTheFile(last, o, an, d);
    }
  }

  // ---------------------------------------------------------------------
  // hasOpeningTag

  /** Whether the first 20 bytes of the file, and hence the file, start
      with `<?php`. An empty file has no opening tag. */
  function HasOpeningTag(content: string): (r: bool)
    ensures r <==> |content| >= 5 && content[..5] == "<?php"
  {
    if |content| == 0 then false
    else
      var buffer := if |content| <= 20 then content else content[..20];
      assert |content| >= 5 ==> buffer[..5] == content[..5];
      StartsWith(buffer, "<?php")
  }

  // ---------------------------------------------------------------------
  // migrationPaths and forNamespace

  /** The normalized migration paths. */
  function MigrationDirs(paths: seq<string>, normalize: string -> string): (dirs: seq<string>)
  {
    seq(|paths|, k requires 0 <= k < |paths| => normalize(paths[k]))
  }

  method MigrationPaths(migratorPaths: seq<string>, normalize: string -> string) returns (migrationDirs: seq<string>)
    ensures |migrationDirs| == |migratorPaths|
    ensures forall k :: 0 <= k < |migratorPaths| ==> migrationDirs[k] == normalize(migratorPaths[k])
  {
    migrationDirs := [];
    for i := 0 to |migratorPaths|
      invariant |migrationDirs| == i
      invariant forall k :: 0 <= k < i ==> migrationDirs[k] == normalize(migratorPaths[k])
    {
      migrationDirs := migrationDirs + [normalize(migratorPaths[i])];
    }
  }

  /** The arguments of one doNamespaceCorrection call: the file to rewrite,
      its relative path, its current and its correct namespace. */
  datatype Correction = Correction(
    absFilePath: string,
    classPath: string,
    currentNamespace: Option<string>,
    correctNamespace: string)

  /** The configuration forNamespace runs under. */
  datatype NamespaceConfig = NamespaceConfig(
    composerPath: string,
    composerNamespace: string,
    migratorPaths: seq<string>)

  /** Whether forNamespace looks at the file at all: not a blade file, its
      path not starting with a normalized migration path (a string prefix
      test, not a directory test), opening with `<?php`, declaring a class
      that does not extend Migration. */
  predicate NamespaceCandidate(file: SourceFile, cfg: NamespaceConfig, an: Collaborators)
  {
    var def := an.classFromFilePath(file.realPath);
    && !EndsWith(file.realPath, ".blade.php")
    && !StartsWithAny(file.realPath, MigrationDirs(cfg.migratorPaths, an.normalize))
    && HasOpeningTag(file.content)
    && Truthy(def.name)
    && def.parent != Some("Migration")
  }

  /** The correction forNamespace applies to one file, if any. */
  function NamespaceCorrection(file: SourceFile, cfg: NamespaceConfig, an: Collaborators): Option<Correction>
  {
    var absFilePath := file.realPath;
    if EndsWith(absFilePath, ".blade.php") then None
    else if StartsWithAny(absFilePath, MigrationDirs(cfg.migratorPaths, an.normalize)) then None
    else if !HasOpeningTag(file.content) then None
    else
      var def := an.classFromFilePath(absFilePath);
      if !Truthy(def.name) || def.parent == Some("Migration") then None
      else
        var relativePath := an.relativePath(absFilePath);
        var correctNamespace := an.correctNamespace(relativePath, cfg.composerPath, cfg.composerNamespace);
        if def.namespace != Some(correctNamespace) then
          Some(Correction(absFilePath, relativePath, def.namespace, correctNamespace))
        else None
  }

  /** The corrections of a whole forNamespace run, file by file. */
  function Corrections(files: seq<SourceFile>, cfg: NamespaceConfig, an: Collaborators): seq<Correction>
    decreases |files|
  {
    if files == [] then []
    else
      Corrections(files[..|files| - 1], cfg, an) + Listed(NamespaceCorrection(files[|files| - 1], cfg, an))
  }

  /** A correction that may be absent, as a list of zero or one. */
  function Listed(c: Option<Correction>): seq<Correction>
  {
    match c
    case None => []
    case Some(c) => [c]
  }

  /** The badNamespace report of one correction, with the argument order of
      doNamespaceCorrection. */
  function BadNamespaceReport(c: Correction): Diagnostic
  {
    BadNamespace(c.classPath, c.correctNamespace, c.currentNamespace)
  }

  /** The badNamespace reports for a list of corrections, one report per
      correction and in the same order. */
  function BadNamespaceReports(cs: seq<Correction>): (ds: seq<Diagnostic>)
    ensures |ds| == |cs|
    ensures forall k :: 0 <= k < |cs| ==> ds[k] == BadNamespaceReport(cs[k])
    decreases |cs|
  {
    if cs == [] then []
    else BadNamespaceReports(cs[..|cs| - 1]) + [BadNamespaceReport(cs[|cs| - 1])]
  }

  lemma BadNamespaceReportsAppend(a: seq<Correction>, b: seq<Correction>)
    ensures BadNamespaceReports(a + b) == BadNamespaceReports(a) + BadNamespaceReports(b)
  {
    var ds := BadNamespaceReports(a + b);
    forall k | 0 <= k < |ds|
      ensures ds[k] == (BadNamespaceReports(a) + BadNamespaceReports(b))[k]
    {
      if k < |a| {
        assert (a + b)[k] == a[k];
      } else {
        assert (a + b)[k] == b[k - |a|];
      }
    }
  }

  /** doNamespaceCorrection: NamespaceCorrector::fix rewrites the file (the
      caller records the rewrite), then badNamespace is reported. */
  method DoNamespaceCorrection(printer: ErrorPrinter, correctNamespace: string, classPath: string, currentNamespace: Option<string>, absFilePath: string)
    returns (fix: Correction)
    modifies printer
    ensures fix == Correction(absFilePath, classPath, currentNamespace, correctNamespace)
    ensures printer.errors == old(printer.errors) + [BadNamespace(classPath, correctNamespace, currentNamespace)]
  {
    fix := Correction(absFilePath, classPath, currentNamespace, correctNamespace);
    printer.BadNamespace(classPath, correctNamespace, currentNamespace);
  }

  /** forNamespace: returns the files it rewrote, in order, each with the
      namespace written into it, and reports each as a bad namespace. */
  method ForNamespace(printer: ErrorPrinter, paths: seq<SourceFile>, cfg: NamespaceConfig, an: Collaborators)
    returns (fixes: seq<Correction>)
    modifies printer
    ensures fixes == Corrections(paths, cfg, an)
    ensures printer.errors == old(printer.errors) + BadNamespaceReports(fixes)
  {
    fixes := [];
    for i := 0 to |paths|
      invariant fixes == Corrections(paths[..i], cfg, an)
      invariant printer.errors == old(printer.errors) + BadNamespaceReports(fixes)
    {
      assert paths[..i + 1][..i] == paths[..i];
      var fix := ForNamespaceFile(printer, paths[i], cfg, an);
      BadNamespaceReportsAppend(fixes, Listed(fix));
      AppendAssoc(old(printer.errors), BadNamespaceReports(fixes), BadNamespaceReports(Listed(fix)));
      fixes := fixes + Listed(fix);
    }
    assert paths[..|paths|] == paths;
  }

  /** One pass of the loop of forNamespace: each `return` is one of its
      `continue`s. */
  method ForNamespaceFile(printer: ErrorPrinter, classFilePath: SourceFile, cfg: NamespaceConfig, an: Collaborators)
    returns (fix: Option<Correction>)
    modifies printer
    ensures fix == NamespaceCorrection(classFilePath, cfg, an)
    ensures printer.errors == old(printer.errors) + BadNamespaceReports(Listed(fix))
  {
    fix := None;
    var absFilePath := classFilePath.realPath;
    if EndsWith(absFilePath, ".blade.php") {
      return;
    }
    var migrationDirs := MigrationPaths(cfg.migratorPaths, an.normalize);
    assert migrationDirs == MigrationDirs(cfg.migratorPaths, an.normalize);
    if StartsWithAny(absFilePath, migrationDirs) {
      return;
    }
    if !HasOpeningTag(classFilePath.content) {
      return;
    }
    var def := an.classFromFilePath(absFilePath);
    if !Truthy(def.name) || def.parent == Some("Migration") {
      return;
    }
    var relativePath := an.relativePath(absFilePath);
    var correctNamespace := an.correctNamespace(relativePath, cfg.composerPath, cfg.composerNamespace);
    if def.namespace != Some(correctNamespace) {
      var c := DoNamespaceCorrection(printer, correctNamespace, relativePath, def.namespace, absFilePath);
      fix := Some(c);
    }
  }

  /** A file is corrected exactly when it is a candidate and its current
      namespace is not, strictly, the correct one; the correction carries the
      file's relative path and both namespaces. */
  lemma NamespaceCorrectionSpec(file: SourceFile, cfg: NamespaceConfig, an: Collaborators)
    ensures var def := an.classFromFilePath(file.realPath);
      var relativePath := an.relativePath(file.realPath);
      var correct := an.correctNamespace(relativePath, cfg.composerPath, cfg.composerNamespace);
      var corrected := NamespaceCorrection(file, cfg, an).Some?;
      (corrected <==> NamespaceCandidate(file, cfg, an) && def.namespace != Some(correct))
    ensures NamespaceCorrection(file, cfg, an).Some? ==>
      var c := NamespaceCorrection(file, cfg, an).value;
      && c.absFilePath == file.realPath
      && c.classPath == an.relativePath(file.realPath)
      && c.currentNamespace == an.classFromFilePath(file.realPath).namespace
      && c.correctNamespace == an.correctNamespace(c.classPath, cfg.composerPath, cfg.composerNamespace)
      && c.currentNamespace != Some(c.correctNamespace)
  {
  }

  /** The migration test is a string prefix: with `/db/migrations` among
      the migration paths, a file under `/db/migrations_old` is skipped too,
      as is any path that continues a normalized migration path. */
  lemma MigrationPrefixSkipped(file: SourceFile, cfg: NamespaceConfig, an: Collaborators, k: nat, rest: string)
    requires k < |cfg.migratorPaths| && an.normalize(cfg.migratorPaths[k]) != ""
    requires file.realPath == an.normalize(cfg.migratorPaths[k]) + rest
    ensures !NamespaceCandidate(file, cfg, an)
    ensures NamespaceCorrection(file, cfg, an) == None
  {
    var dirs := MigrationDirs(cfg.migratorPaths, an.normalize);
    var dir := an.normalize(cfg.migratorPaths[k]);
    assert file.realPath[..|dir|] == dir;
    assert StartsWith(file.realPath, dirs[k]);
  }

  /** A correction applied once is not applied again: once the file
      declares the correct namespace, a later run leaves it alone. */
  lemma CorrectionIsStable(file: SourceFile, cfg: NamespaceConfig, an: Collaborators, fixed: string -> ClassDefinition)
    requires NamespaceCorrection(file, cfg, an).Some?
    requires fixed(file.realPath)
          == an.classFromFilePath(file.realPath).(namespace := Some(NamespaceCorrection(file, cfg, an).value.correctNamespace))
    ensures NamespaceCorrection(file, cfg, an.(classFromFilePath := fixed)) == None
  {
  }

  lemma {:induction false} CorrectionsMember(files: seq<SourceFile>, cfg: NamespaceConfig, an: Collaborators, c: Correction)
    ensures c in Corrections(files, cfg, an) <==>
      exists k :: 0 <= k < |files| && NamespaceCorrection(files[k], cfg, an) == Some(c)
    decreases |files|
  {
    if files != [] {
      var front := files[..|files| - 1];
      CorrectionsMember(front, cfg, an, c);
      if exists k :: 0 <= k < |front| && NamespaceCorrection(front[k], cfg, an) == Some(c) {
        var k :| 0 <= k < |front| && NamespaceCorrection(front[k], cfg, an) == Some(c);
        assert files[k] == front[k];
      }
      if exists k :: 0 <= k < |files| && NamespaceCorrection(files[k], cfg, an) == Some(c) {
        var k :| 0 <= k < |files| && NamespaceCorrection(files[k], cfg, an) == Some(c);
        if k < |front| {
          assert front[k] == files[k];
        }
      }
    }
  }

  /** No blade file, no file whose path starts with a migration path, no file without
      `<?php`, no classless file and no migration class is ever rewritten or
      reported as a bad namespace in a whole run. */
  lemma {:induction false} CorrectionsOnlyCandidates(files: seq<SourceFile>, cfg: NamespaceConfig, an: Collaborators, c: Correction)
    requires c in Corrections(files, cfg, an)
    ensures exists k ::
      && 0 <= k < |files| && NamespaceCandidate(files[k], cfg, an)
      && c.absFilePath == files[k].realPath && c.currentNamespace != Some(c.correctNamespace)
  {
    CorrectionsMember(files, cfg, an, c);
    var k :| 0 <= k < |files| && NamespaceCorrection(files[k], cfg, an) == Some(c);
    NamespaceCorrectionSpec(files[k], cfg, an);
  }

  // ---------------------------------------------------------------------
  // calculateClassFromFile

  /** The class name of a file: drop the first occurrence of the base path,
      trim directory separators from both ends, drop the last ".php", turn
      directory separators into backslashes, and replace every
      `rtrim(path, '/')\` by the root namespace. When the root namespace
      holds no directory separator (and that separator is not the backslash
      itself) neither does the result. */
  function CalculateClassFromFile(filePath: string, basePath: string, path: string, rootNamespace: string, directorySeparator: char): (r: string)
    ensures directorySeparator != '\\' && directorySeparator !in rootNamespace ==> directorySeparator !in r
  {
    var className := Trim(ReplaceFirst(basePath, "", filePath), {directorySeparator});
    var withoutDotPhp := ReplaceLast(".php", "", className);
    var allBackSlash := StrReplace([directorySeparator], "\\", withoutDotPhp);
    StrReplaceRemovesChar(directorySeparator, "\\", withoutDotPhp);
    StrReplace(TrimRight(path, {'/'}) + "\\", rootNamespace, allBackSlash)
  }
}
