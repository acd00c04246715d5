/** The diagnostics the checker reports and the shared ErrorPrinter that
    collects them. Only which report was made, and with which arguments, is
    recorded; rendering to the console is not modelled. */
module ErrorPrinter {
  import opened Php

  datatype Diagnostic =
    | WrongUsedClass(absPath: string, className: string, line: nat)
    | WrongMethod(absPath: string, callable: string, line: nat)
    | WrongImport(absPath: string, className: string, line: nat)
    | BadNamespace(classPath: string, correctNamespace: string, currentNamespace: Option<string>)

  class ErrorPrinter {
    var errors: seq<Diagnostic>

    constructor ()
      ensures errors == []
    {
      errors := [];
    }

    method WrongUsedClassError(absPath: string, className: string, line: nat)
      modifies this
      ensures errors == old(errors) + [WrongUsedClass(absPath, className, line)]
    {
      errors := errors + [WrongUsedClass(absPath, className, line)];
    }

    method WrongMethodError(absPath: string, callable: string, line: nat)
      modifies this
      ensures errors == old(errors) + [WrongMethod(absPath, callable, line)]
    {
      errors := errors + [WrongMethod(absPath, callable, line)];
    }

    method WrongImport(absPath: string, className: string, line: nat)
      modifies this
      ensures errors == old(errors) + [Diagnostic.WrongImport(absPath, className, line)]
    {
      errors := errors + [Diagnostic.WrongImport(absPath, className, line)];
    }

    method BadNamespace(classPath: string, correctNamespace: string, currentNamespace: Option<string>)
      modifies this
      ensures errors == old(errors) + [Diagnostic.BadNamespace(classPath, correctNamespace, currentNamespace)]
    {
      errors := errors + [Diagnostic.BadNamespace(classPath, correctNamespace, currentNamespace)];
    }
  }
}
