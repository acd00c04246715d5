/** The run-time class loader of the host application, which the checker
    queries through class_exists, interface_exists, trait_exists,
    function_exists and method_exists. It is an oracle here: any answers at
    all, fixed for the whole run. */
module Symbols {

  datatype Oracle = Oracle(
    classExists: string -> bool,
    interfaceExists: string -> bool,
    traitExists: string -> bool,
    functionExists: string -> bool,
    methodExists: (string, string) -> bool)
}
