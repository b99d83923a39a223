/** MethodAnalyzer: resolving an API endpoint to the client method that
    implements it, and collecting every call of those methods in a solution.
    The C# syntax trees and the semantic model are replaced by the facts the
    tool reads from them: the method declarations of the client file, and,
    per document, the calls with their already-resolved targets. */
module MethodAnalyzer {
  import opened Outcomes
  import opened Text
  import opened Models
  import opened Sequences

  // ------------------------------------------------- declarations of a file

  datatype LiteralKind = StringLiteral | OtherLiteral

  /** A literal expression inside a method body, with its token's value text. */
  datatype Literal = Literal(kind: LiteralKind, valueText: string)

  datatype TriviaKind = SingleLineComment | MultiLineComment | DocumentationComment | OtherTrivia

  /** A piece of trivia attached to a method, with its full text. */
  datatype Trivia = Trivia(kind: TriviaKind, text: string)

  /** A method declaration: its identifier, the literals of its body (None for
      a declaration without a block body) and all of its trivia. */
  datatype MethodDeclaration = MethodDeclaration(
    name: string,
    body: Option<seq<Literal>>,
    trivia: seq<Trivia>)

  // ------------------------------------------------------ path normalisation

  /** Removes one leading '/' and then one trailing '/', where present. */
  function StripSlashes(path: string): (r: string)
    ensures |r| <= |path| <= |r| + 2
    ensures OccursAt(path, r, if StartsWithChar(path, '/') then 1 else 0)
    ensures !StartsWithChar(path, '/') && !EndsWithChar(path, '/') ==> r == path
  {
    var a := if StartsWithChar(path, '/') then path[1..] else path;
    if EndsWithChar(a, '/') then a[..|a| - 1] else a
  }

  /** PreProcessPath: strip the slashes, refuse a path that already carries a
      quote at either end, wrap the rest in double quotes. */
  function PreProcessPath(path: string): (r: Result<string>)
    ensures r.Success? <==> !StartsWithChar(StripSlashes(path), '"') && !EndsWithChar(StripSlashes(path), '"')
    ensures r.Failure? ==> r.error == PathAlreadyQuoted(StripSlashes(path))
    ensures r.Success? ==>
      && |r.value| == |StripSlashes(path)| + 2
      && StartsWithChar(r.value, '"') && EndsWithChar(r.value, '"')
      && r.value[1..|r.value| - 1] == StripSlashes(path)
  {
    var p := StripSlashes(path);
    if StartsWithChar(p, '"') || EndsWithChar(p, '"') then Failure(PathAlreadyQuoted(p))
    else Success(['"'] + p + ['"'])
  }

  /** A normalised path cannot be normalised again: it is quoted now. */
  lemma PreProcessPathRefusesItsOutput(path: string)
    requires PreProcessPath(path).Success?
    ensures PreProcessPath(PreProcessPath(path).value) == Failure(PathAlreadyQuoted(PreProcessPath(path).value))
  {
    var q := PreProcessPath(path).value;
    assert !StartsWithChar(q, '/') && !EndsWithChar(q, '/');
  }

  /** Paths that differ only in one surrounding slash are normalised alike. */
  lemma PreProcessPathIgnoresOuterSlashes(path: string)
    requires !StartsWithChar(path, '/') && !EndsWithChar(path, '/')
    ensures PreProcessPath(['/'] + path) == PreProcessPath(path)
    ensures PreProcessPath(path + ['/']) == PreProcessPath(path)
    ensures PreProcessPath(['/'] + path + ['/']) == PreProcessPath(path)
  {
    assert (['/'] + path)[1..] == path;
    assert (path + ['/'])[..|path|] == path;
    var both := ['/'] + path + ['/'];
    assert both[1..] == path + ['/'];
  }

  // ------------------------------------------------------ candidate methods

  /** MethodContainsRequestMethod: the method has a body and one of the
      string literals in it equals the request method ignoring case. */
  predicate MethodContainsRequestMethod(m: MethodDeclaration, requestMethod: string) {
    && m.body.Some?
    && exists lit :: lit in m.body.value && lit.kind == StringLiteral && EqualsIgnoreCase(lit.valueText, requestMethod)
  }

  predicate IsCodeComment(t: Trivia) {
    t.kind == SingleLineComment || t.kind == MultiLineComment
  }

  /** MethodContainsPathInComments: a `//` or block comment of the method
      contains the quoted path ignoring case. */
  predicate MethodContainsPathInComments(m: MethodDeclaration, quotedPath: string) {
    exists t :: t in m.trivia && IsCodeComment(t) && ContainsIgnoreCase(t.text, quotedPath)
  }

  predicate IsCandidate(m: MethodDeclaration, requestMethod: string, quotedPath: string) {
    MethodContainsRequestMethod(m, requestMethod) && MethodContainsPathInComments(m, quotedPath)
  }

  /** The declarations passing both tests, in file order. */
  function Candidates(methods: seq<MethodDeclaration>, requestMethod: string, quotedPath: string): seq<MethodDeclaration> {
    Filter(methods, m => IsCandidate(m, requestMethod, quotedPath))
  }

  function Names(methods: seq<MethodDeclaration>): (names: seq<string>)
    ensures |names| == |methods|
    ensures forall i :: 0 <= i < |methods| ==> names[i] == methods[i].name
  {
    seq(|methods|, i requires 0 <= i < |methods| => methods[i].name)
  }

  /** Exactly the declaration at position i is a candidate. */
  predicate OnlyCandidateAt(methods: seq<MethodDeclaration>, requestMethod: string, quotedPath: string, i: int) {
    && 0 <= i < |methods|
    && IsCandidate(methods[i], requestMethod, quotedPath)
    && forall j :: 0 <= j < |methods| && j != i ==> !IsCandidate(methods[j], requestMethod, quotedPath)
  }

  /** FindMethodName over the declarations of the client file (None when the
      file does not exist). */
  function FindMethodName(
    clientFile: Option<seq<MethodDeclaration>>, csFilePath: string, requestMethod: string, path: string): (r: Result<string>)
    ensures r.Success? ==>
      && PreProcessPath(path).Success? && !IsWhiteSpaceOnly(csFilePath) && clientFile.Some?
      && exists m :: m in clientFile.value && m.name == r.value && IsCandidate(m, requestMethod, PreProcessPath(path).value)
  {
    var quoted :- PreProcessPath(path);
    if IsWhiteSpaceOnly(csFilePath) then Failure(EmptyFilePath)
    else if clientFile.None? then Failure(FileNotFound(csFilePath))
    else
      var found := Candidates(clientFile.value, requestMethod, quoted);
      if |found| == 0 then Failure(NoMethodFound(requestMethod, quoted))
      else if |found| > 1 then Failure(MultipleMethodsFound(requestMethod, quoted, Names(found)))
      else Success(found[0].name)
  }

  /** A body-less declaration (abstract, partial, expression-bodied) is never
      a candidate. */
  lemma NoBodyNoCandidate(m: MethodDeclaration, requestMethod: string, quotedPath: string)
    requires m.body.None?
    ensures !IsCandidate(m, requestMethod, quotedPath)
  {
  }

  /** The path is checked before anything else: a quoted path fails even
      when the file path is blank or the file is missing. */
  lemma FindMethodNameChecksPathFirst(
    clientFile: Option<seq<MethodDeclaration>>, csFilePath: string, requestMethod: string, path: string)
    requires StartsWithChar(StripSlashes(path), '"') || EndsWithChar(StripSlashes(path), '"')
    ensures FindMethodName(clientFile, csFilePath, requestMethod, path) == Failure(PathAlreadyQuoted(StripSlashes(path)))
  {
  }

  /** The file checks, in order: a blank file path, then a missing file. */
  lemma FindMethodNameFileErrors(
    clientFile: Option<seq<MethodDeclaration>>, csFilePath: string, requestMethod: string, path: string)
    requires PreProcessPath(path).Success?
    ensures IsWhiteSpaceOnly(csFilePath) ==> FindMethodName(clientFile, csFilePath, requestMethod, path) == Failure(EmptyFilePath)
    ensures !IsWhiteSpaceOnly(csFilePath) && clientFile.None? ==>
      FindMethodName(clientFile, csFilePath, requestMethod, path) == Failure(FileNotFound(csFilePath))
  {
  }

  /** A unique candidate is found, and its name is the answer. */
  lemma FindMethodNameUnique(
    methods: seq<MethodDeclaration>, csFilePath: string, requestMethod: string, path: string, i: int)
    requires PreProcessPath(path).Success? && !IsWhiteSpaceOnly(csFilePath)
    requires OnlyCandidateAt(methods, requestMethod, PreProcessPath(path).value, i)
    ensures FindMethodName(Some(methods), csFilePath, requestMethod, path) == Success(methods[i].name)
  {
    var quoted := PreProcessPath(path).value;
    FilterSingle(methods, m => IsCandidate(m, requestMethod, quoted), i);
  }

  /** With no candidate the lookup fails, naming the method and quoted path. */
  lemma FindMethodNameNone(
    methods: seq<MethodDeclaration>, csFilePath: string, requestMethod: string, path: string)
    requires PreProcessPath(path).Success? && !IsWhiteSpaceOnly(csFilePath)
    requires forall j :: 0 <= j < |methods| ==> !IsCandidate(methods[j], requestMethod, PreProcessPath(path).value)
    ensures FindMethodName(Some(methods), csFilePath, requestMethod, path)
      == Failure(NoMethodFound(requestMethod, PreProcessPath(path).value))
  {
    var quoted := PreProcessPath(path).value;
    FilterNone(methods, m => IsCandidate(m, requestMethod, quoted));
  }

  /** Two candidates make the lookup fail, and the error lists the names of
      all candidates, in file order, and nothing else. */
  lemma FindMethodNameAmbiguous(
    methods: seq<MethodDeclaration>, csFilePath: string, requestMethod: string, path: string, i: int, j: int)
    requires PreProcessPath(path).Success? && !IsWhiteSpaceOnly(csFilePath)
    requires 0 <= i < j < |methods|
    requires IsCandidate(methods[i], requestMethod, PreProcessPath(path).value)
    requires IsCandidate(methods[j], requestMethod, PreProcessPath(path).value)
    ensures var r := FindMethodName(Some(methods), csFilePath, requestMethod, path);
      && r.Failure? && r.error.MultipleMethodsFound?
      && r.error.requestMethod == requestMethod && r.error.path == PreProcessPath(path).value
      && methods[i].name in r.error.names && methods[j].name in r.error.names
      && r.error.names == Names(Candidates(methods, requestMethod, PreProcessPath(path).value))
  {
    var quoted := PreProcessPath(path).value;
    var found := Candidates(methods, requestMethod, quoted);
    FilterTwo(methods, m => IsCandidate(m, requestMethod, quoted), i, j);
    assert methods[i] in found && methods[j] in found;
    var a :| 0 <= a < |found| && found[a] == methods[i];
    var b :| 0 <= b < |found| && found[b] == methods[j];
    assert Names(found)[a] == methods[i].name && Names(found)[b] == methods[j].name;
  }

  /** Conversely, a success names a declaration that is the only candidate. */
  lemma FindMethodNameSound(
    methods: seq<MethodDeclaration>, csFilePath: string, requestMethod: string, path: string)
    requires FindMethodName(Some(methods), csFilePath, requestMethod, path).Success?
    ensures PreProcessPath(path).Success? && !IsWhiteSpaceOnly(csFilePath)
    ensures exists i ::
      (OnlyCandidateAt(methods, requestMethod, PreProcessPath(path).value, i)
       && FindMethodName(Some(methods), csFilePath, requestMethod, path).value == methods[i].name)
  {
    var quoted := PreProcessPath(path).value;
    var keep := m => IsCandidate(m, requestMethod, quoted);
    var found := Filter(methods, keep);
    assert |found| == 1;
    assert found[0] in methods;
    var i :| 0 <= i < |methods| && methods[i] == found[0];
    forall j | 0 <= j < |methods| && j != i
      ensures !IsCandidate(methods[j], requestMethod, quoted)
    {
      if IsCandidate(methods[j], requestMethod, quoted) {
        if i < j { FilterTwo(methods, keep, i, j); } else { FilterTwo(methods, keep, j, i); }
      }
    }
    assert OnlyCandidateAt(methods, requestMethod, quoted, i);
  }

  // ---------------------------------------------------- invocation collection

  /** The target of a resolved call: its name, the files of its declaring
      syntax references, and the name of its containing type (if any). */
  datatype MethodSymbol = MethodSymbol(name: string, declaringFiles: seq<string>, containingType: Option<string>)

  /** An invocation expression: its target when the semantic model resolves
      it to a method, its 0-based start position, and the names of the class
      declarations around it, innermost first. */
  datatype Call = Call(target: Option<MethodSymbol>, line: nat, character: nat, enclosingClasses: seq<string>)

  datatype SyntaxTree = SyntaxTree(filePath: string, calls: seq<Call>)

  /** A document and its syntax tree (None when the tree is unavailable). */
  datatype Document = Document(name: string, syntaxTree: Option<SyntaxTree>)

  /** A project; hasCompilation is false when no compilation is produced. */
  datatype Project = Project(name: string, hasCompilation: bool, documents: seq<Document>)

  const ExternalOrNoSource: string := "External or No Source"
  const UnknownClass: string := "Unknown"

  /** The pair recorded for a call found in the file filePath. */
  function BuildPair(filePath: string, target: MethodSymbol, call: Call): (p: InvocationDefinitionPair)
    ensures p.invocation.filePath == filePath
    ensures p.invocation.lineNumber == call.line + 1 && p.invocation.columnNumber == call.character + 1
    ensures p.invocation.containingClass ==
      if call.enclosingClasses == [] then UnknownClass else call.enclosingClasses[0]
    ensures p.definition.filePath ==
      if target.declaringFiles == [] then ExternalOrNoSource else target.declaringFiles[0]
    ensures p.definition.containingClass == target.containingType.GetOr(UnknownClass)
  {
    var definitionClass := target.containingType.GetOr(UnknownClass);
    var definition :=
      if |target.declaringFiles| > 0 then MethodInfo(target.declaringFiles[0], definitionClass)
      else MethodInfo(ExternalOrNoSource, definitionClass);
    var callerClass := if |call.enclosingClasses| > 0 then call.enclosingClasses[0] else UnknownClass;
    InvocationDefinitionPair(
      InvocationLocation(filePath, callerClass, call.line + 1, call.character + 1),
      definition)
  }

  /** methodNames.ToDictionary(name => name, name => new List()): every name
      starts with an empty list; a repeated name is a duplicate key. */
  function Seed(names: seq<string>): (r: Result<InvocationIndex>)
    ensures r.Success? <==> Distinct(names)
    ensures r.Success? ==> r.value.Keys == (set n | n in names) && forall k :: k in r.value ==> r.value[k] == []
    ensures r.Failure? ==> r.error.DuplicateKey? && r.error.key in names
  {
    if names == [] then Success(map[])
    else
      var prefix := names[..|names| - 1];
      var last := names[|names| - 1];
      assert names == prefix + [last];
      var index :- Seed(prefix);
      if last in index then Failure(DuplicateKey(last))
      else Success(index[last := []])
  }

  /** The resolved target of a call, when its name is a key of the index. */
  predicate Tracked(index: InvocationIndex, call: Call) {
    call.target.Some? && call.target.value.name in index
  }

  /** The loop body for one call. */
  function RecordCall(index: InvocationIndex, filePath: string, call: Call): InvocationIndex {
    if Tracked(index, call) then
      var name := call.target.value.name;
      index[name := index[name] + [BuildPair(filePath, call.target.value, call)]]
    else index
  }

  /** The calls of one file, visited in order. */
  function ScanCalls(index: InvocationIndex, filePath: string, calls: seq<Call>): (r: InvocationIndex)
    ensures r.Keys == index.Keys
  {
    if calls == [] then index
    else RecordCall(ScanCalls(index, filePath, calls[..|calls| - 1]), filePath, calls[|calls| - 1])
  }

  /** The documents of one project, visited in order. */
  function ScanDocuments(index: InvocationIndex, documents: seq<Document>): (r: Result<InvocationIndex>)
    ensures r.Success? ==> r.value.Keys == index.Keys
  {
    if documents == [] then Success(index)
    else
      var before :- ScanDocuments(index, documents[..|documents| - 1]);
      var document := documents[|documents| - 1];
      if document.syntaxTree.None? then Failure(MissingSyntaxTree(document.name))
      else Success(ScanCalls(before, document.syntaxTree.value.filePath, document.syntaxTree.value.calls))
  }

  /** The projects of the solution, visited in order. */
  function ScanProjects(index: InvocationIndex, projects: seq<Project>): (r: Result<InvocationIndex>)
    ensures r.Success? ==> r.value.Keys == index.Keys
  {
    if projects == [] then Success(index)
    else
      var before :- ScanProjects(index, projects[..|projects| - 1]);
      var project := projects[|projects| - 1];
      if !project.hasCompilation then Failure(MissingCompilation(project.name))
      else ScanDocuments(before, project.documents)
  }

  /** What MapInvocationsToDefinitionsAsync returns for a solution. */
  function Collect(methodNames: seq<string>, solution: seq<Project>): (r: Result<InvocationIndex>)
    ensures r.Success? ==> Distinct(methodNames) && r.value.Keys == set n | n in methodNames
  {
    var seeded :- Seed(methodNames);
    ScanProjects(seeded, solution)
  }

  lemma {:induction false} ScanDocumentsFailurePersists(index: InvocationIndex, documents: seq<Document>, n: nat)
    requires n <= |documents| && ScanDocuments(index, documents[..n]).Failure?
    ensures ScanDocuments(index, documents) == ScanDocuments(index, documents[..n])
    decreases |documents|
  {
    if n < |documents| {
      var prefix := documents[..|documents| - 1];
      assert prefix[..n] == documents[..n];
      ScanDocumentsFailurePersists(index, prefix, n);
    } else {
      assert documents[..n] == documents;
    }
  }

  lemma {:induction false} ScanProjectsFailurePersists(index: InvocationIndex, projects: seq<Project>, n: nat)
    requires n <= |projects| && ScanProjects(index, projects[..n]).Failure?
    ensures ScanProjects(index, projects) == ScanProjects(index, projects[..n])
    decreases |projects|
  {
    if n < |projects| {
      var prefix := projects[..|projects| - 1];
      assert prefix[..n] == projects[..n];
      ScanProjectsFailurePersists(index, prefix, n);
    } else {
      assert projects[..n] == projects;
    }
  }

  /** The innermost loop of MapInvocationsToDefinitionsAsync: the calls of
      one syntax tree, each call to a tracked method appended under its name. */
  method RecordCalls(dict: InvocationIndex, tree: SyntaxTree) returns (result: InvocationIndex)
    ensures result == ScanCalls(dict, tree.filePath, tree.calls)
  {
    result := dict;
    var k := 0;
    while k < |tree.calls|
      invariant 0 <= k <= |tree.calls|
      invariant result == ScanCalls(dict, tree.filePath, tree.calls[..k])
    {
      var call := tree.calls[k];
      assert tree.calls[..k + 1][..k] == tree.calls[..k] && tree.calls[..k + 1][k] == call;
      if call.target.Some? && call.target.value.name in result {
        var name := call.target.value.name;
        result := result[name := result[name] + [BuildPair(tree.filePath, call.target.value, call)]];
      }
      k := k + 1;
    }
    assert tree.calls[..k] == tree.calls;
  }

  /** The middle loop: the documents of one project; a document without a
      syntax tree aborts the run. */
  method RecordDocuments(dict: InvocationIndex, documents: seq<Document>) returns (r: Result<InvocationIndex>)
    ensures r == ScanDocuments(dict, documents)
  {
    var current := dict;
    var j := 0;
    while j < |documents|
      invariant 0 <= j <= |documents|
      invariant ScanDocuments(dict, documents[..j]) == Success(current)
    {
      var document := documents[j];
      assert documents[..j + 1][..j] == documents[..j] && documents[..j + 1][j] == document;
      if document.syntaxTree.None? {
        ScanDocumentsFailurePersists(dict, documents, j + 1);
        return Failure(MissingSyntaxTree(document.name));
      }
      current := RecordCalls(current, document.syntaxTree.value);
      j := j + 1;
    }
    assert documents[..j] == documents;
    return Success(current);
  }

  /** MapInvocationsToDefinitionsAsync over an already-loaded solution: seed
      the dictionary, then walk projects, documents and calls, appending a
      pair under the target's name for every call to a tracked method. */
  method MapInvocationsToDefinitions(methodNames: seq<string>, solution: seq<Project>)
    returns (r: Result<InvocationIndex>)
    ensures r == Collect(methodNames, solution)
  {
    var seeded := Seed(methodNames);
    if seeded.Failure? {
      return Failure(seeded.error);
    }
    var dict := seeded.value;
    var i := 0;
    while i < |solution|
      invariant 0 <= i <= |solution|
      invariant ScanProjects(seeded.value, solution[..i]) == Success(dict)
    {
      var project := solution[i];
      assert solution[..i + 1][..i] == solution[..i] && solution[..i + 1][i] == project;
      if !project.hasCompilation {
        ScanProjectsFailurePersists(seeded.value, solution, i + 1);
        return Failure(MissingCompilation(project.name));
      }
      var scanned := RecordDocuments(dict, project.documents);
      if scanned.Failure? {
        ScanProjectsFailurePersists(seeded.value, solution, i + 1);
        return Failure(scanned.error);
      }
      dict := scanned.value;
      i := i + 1;
    }
    assert solution[..i] == solution;
    return Success(dict);
  }

  // ------------------------------------------- what the collected lists hold

  /** The pairs recorded for calls to name among the given calls, in order. */
  function CallsTo(name: string, filePath: string, calls: seq<Call>): seq<InvocationDefinitionPair> {
    if calls == [] then []
    else
      var last := calls[|calls| - 1];
      CallsTo(name, filePath, calls[..|calls| - 1])
        + (if last.target.Some? && last.target.value.name == name then [BuildPair(filePath, last.target.value, last)] else [])
  }

  function DocumentCallsTo(name: string, documents: seq<Document>): seq<InvocationDefinitionPair> {
    if documents == [] then []
    else
      var last := documents[|documents| - 1];
      DocumentCallsTo(name, documents[..|documents| - 1])
        + (if last.syntaxTree.Some? then CallsTo(name, last.syntaxTree.value.filePath, last.syntaxTree.value.calls) else [])
  }

  function SolutionCallsTo(name: string, projects: seq<Project>): seq<InvocationDefinitionPair> {
    if projects == [] then []
    else SolutionCallsTo(name, projects[..|projects| - 1]) + DocumentCallsTo(name, projects[|projects| - 1].documents)
  }

  predicate AllParsed(documents: seq<Document>) {
    forall i :: 0 <= i < |documents| ==> documents[i].syntaxTree.Some?
  }

  predicate AllCompiled(projects: seq<Project>) {
    forall i :: 0 <= i < |projects| ==> projects[i].hasCompilation && AllParsed(projects[i].documents)
  }

  /** Scanning calls only appends, under each tracked name, the pairs of the
      calls to that name. */
  lemma {:induction false} ScanCallsAppends(index: InvocationIndex, filePath: string, calls: seq<Call>)
    ensures forall k :: k in index ==> ScanCalls(index, filePath, calls)[k] == index[k] + CallsTo(k, filePath, calls)
  {
    if calls != [] {
      ScanCallsAppends(index, filePath, calls[..|calls| - 1]);
    }
  }

  lemma {:induction false} ScanDocumentsAppends(index: InvocationIndex, documents: seq<Document>)
    ensures ScanDocuments(index, documents).Success? <==> AllParsed(documents)
    ensures ScanDocuments(index, documents).Success? ==>
      forall k :: k in index ==> ScanDocuments(index, documents).value[k] == index[k] + DocumentCallsTo(k, documents)
  {
    if documents != [] {
      var prefix := documents[..|documents| - 1];
      var last := documents[|documents| - 1];
      ScanDocumentsAppends(index, prefix);
      assert AllParsed(documents) <==> AllParsed(prefix) && last.syntaxTree.Some?;
      var before := ScanDocuments(index, prefix);
      if before.Success? && last.syntaxTree.Some? {
        ScanCallsAppends(before.value, last.syntaxTree.value.filePath, last.syntaxTree.value.calls);
      }
    }
  }

  lemma {:induction false} ScanProjectsAppends(index: InvocationIndex, projects: seq<Project>)
    ensures ScanProjects(index, projects).Success? <==> AllCompiled(projects)
    ensures ScanProjects(index, projects).Success? ==>
      forall k :: k in index ==> ScanProjects(index, projects).value[k] == index[k] + SolutionCallsTo(k, projects)
  {
    if projects != [] {
      var prefix := projects[..|projects| - 1];
      var last := projects[|projects| - 1];
      ScanProjectsAppends(index, prefix);
      assert AllCompiled(projects) <==> AllCompiled(prefix) && last.hasCompilation && AllParsed(last.documents);
      var before := ScanProjects(index, prefix);
      if before.Success? {
        ScanDocumentsAppends(before.value, last.documents);
      }
    }
  }

  /** The collected dictionary: it exists exactly when the names are
      distinct, every project compiles and every document has a tree; its
      keys are the names; under each name lie exactly the pairs of the calls
      to that name, in discovery order, so a name never called maps to an
      empty list rather than being absent. */
  lemma CollectCharacterization(methodNames: seq<string>, solution: seq<Project>)
    ensures Collect(methodNames, solution).Success? <==> Distinct(methodNames) && AllCompiled(solution)
    ensures Collect(methodNames, solution).Success? ==>
      && Collect(methodNames, solution).value.Keys == (set n | n in methodNames)
      && forall k :: k in methodNames ==> Collect(methodNames, solution).value[k] == SolutionCallsTo(k, solution)
  {
    var seeded := Seed(methodNames);
    if seeded.Success? {
      ScanProjectsAppends(seeded.value, solution);
    }
  }

  /** Only calls resolved to a tracked name are recorded: a call with no
      resolved target, or to another name, leaves every list as it was. */
  lemma UntrackedCallIgnored(index: InvocationIndex, filePath: string, call: Call)
    requires !Tracked(index, call)
    ensures forall k :: k in index ==> ScanCalls(index, filePath, [call])[k] == index[k]
  {
    assert [call][..0] == [];
  }
}
