/** Failure-compatible wrappers shared by every stage, and the exceptions the
    tool raises, one constructor per throw site (or failing assertion). */
module Outcomes {

  /** A value that may be absent: a C# null reference or a missing entry. */
  datatype Option<+T> = None | Some(value: T) {
    function GetOr(default: T): T {
      match this
      case Some(v) => v
      case None => default
    }
  }

  /** What the tool does when an exception escapes: every stage aborts the run. */
  datatype Error =
    // MethodAnalyzer.FindMethodName
    | PathAlreadyQuoted(path: string)
    | EmptyFilePath
    | FileNotFound(filePath: string)
    | NoMethodFound(requestMethod: string, path: string)
    | MultipleMethodsFound(requestMethod: string, path: string, names: seq<string>)
    // Enumerable.ToDictionary meeting a key twice
    | DuplicateKey(key: string)
    // MethodAnalyzer.MapInvocationsToDefinitionsAsync
    | MissingCompilation(project: string)
    | MissingSyntaxTree(document: string)
    // FilterUtils
    | InconsistentDefinitions
    | InvocationClassMatchesDefinition
    | InvocationFileMatchesDefinition
    // SwaggerCoverageCore
    | NonUniqueMethodNames
    | KeyNotFound(key: string)
    // SwaggerRequestExtractor and System.Text.Json
    | NotAnObject
    | NotAString
    | MissingSection(name: string)
    | MissingProperty(name: string)
    | EmptyProperty(name: string)
    | BlankProperty(name: string)

  datatype Result<+T> = Success(value: T) | Failure(error: Error) {
    predicate IsFailure() {
      Failure?
    }

    function PropagateFailure<U>(): Result<U>
      requires Failure?
    {
      Failure(error)
    }

    function Extract(): T
      requires Success?
    {
      value
    }
  }
}
