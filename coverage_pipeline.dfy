/** The run of the tool, stage by stage in the order the command line entry
    point drives them: the client's output path and class name, endpoints,
    endpoint-to-method binding, call collection, the two filters, the
    per-endpoint lists, and the counts. The output path is read and checked
    like any other property; the full file path it resolves to, the client's
    parsed declarations, the downloaded API document and the loaded solution
    are inputs. */
module CoveragePipeline {
  import opened Outcomes
  import opened Text
  import opened Models
  import opened Sequences
  import opened MethodAnalyzer
  import opened FilterUtils
  import opened SwaggerCoverageCore
  import opened SwaggerRequestExtractor

  /** The calls to one method that the two filters keep. */
  function ClientCalls(calls: seq<InvocationDefinitionPair>, className: string, clientFilePath: string): seq<InvocationDefinitionPair> {
    Filter(Filter(calls, ByClass(className)), NotFromClient(className, clientFilePath))
  }

  /** One run of the tool up to the counts. */
  method RunCoverage(
    nswag: Json, download: string -> Json, clientFilePath: string,
    clientFile: Option<seq<MethodDeclaration>>, solution: seq<Project>)
    returns (r: Result<map<string, int>>)
    ensures r == Coverage(nswag, download, clientFilePath, clientFile, solution)
  {
    var output :- GetGeneratedClientOutput(nswag);
    var className :- GetGeneratedClientClassName(nswag);
    var requests :- ExtractRequests(nswag, download);
    var bindings :- GetRequestToMethodNameMapping(requests, clientFile, clientFilePath);
    var collected :- MapInvocationsToDefinitions(MethodNames(bindings), solution);
    var inDefinition :- FilterByDefinition(collected, className, clientFilePath);
    var filtered :- FilterOutInvocationsInDefinition(inDefinition, className, clientFilePath);
    var byRequest :- CreateRequestToInvocationsDictionary(bindings, filtered);
    return Success(CalculateInvocationsCount(byRequest));
  }

  /** The intermediate values of a successful run. */
  datatype Stages = Stages(
    output: string,
    className: string,
    requests: seq<Request>,
    bindings: seq<Binding>,
    collected: InvocationIndex,
    inDefinition: InvocationIndex,
    filtered: InvocationIndex,
    byRequest: InvocationIndex)

  /** The stages of a run, when every one of them succeeds. */
  function RunStages(
    nswag: Json, download: string -> Json, clientFilePath: string,
    clientFile: Option<seq<MethodDeclaration>>, solution: seq<Project>): Result<Stages>
  {
    var output :- PropertyAt(nswag, ClientSection, "output");
    var className :- PropertyAt(nswag, ClientSection, "className");
    var requests :- ExtractedRequests(nswag, download);
    var bindings :- GetRequestToMethodNameMapping(requests, clientFile, clientFilePath);
    var collected :- Collect(MethodNames(bindings), solution);
    var inDefinition :- FilterByDefinition(collected, className, clientFilePath);
    var filtered :- FilterOutInvocationsInDefinition(inDefinition, className, clientFilePath);
    var byRequest :- CreateRequestToInvocationsDictionary(bindings, filtered);
    Success(Stages(output, className, requests, bindings, collected, inDefinition, filtered, byRequest))
  }

  /** The count per endpoint that a run produces, or the error that stops it. */
  function Coverage(
    nswag: Json, download: string -> Json, clientFilePath: string,
    clientFile: Option<seq<MethodDeclaration>>, solution: seq<Project>): Result<map<string, int>>
  {
    var st :- RunStages(nswag, download, clientFilePath, clientFile, solution);
    Success(CalculateInvocationsCount(st.byRequest))
  }

  /** The client's output path is read first: a configuration whose output
      is missing, null or blank fails with that error, whatever else it holds. */
  lemma CoverageReadsOutputFirst(
    nswag: Json, download: string -> Json, clientFilePath: string,
    clientFile: Option<seq<MethodDeclaration>>, solution: seq<Project>)
    requires PropertyAt(nswag, ClientSection, "output").Failure?
    ensures Coverage(nswag, download, clientFilePath, clientFile, solution)
      == Failure(PropertyAt(nswag, ClientSection, "output").error)
  {
  }

  /** What each stage of a successful run produced. */
  lemma StagesOf(
    nswag: Json, download: string -> Json, clientFilePath: string,
    clientFile: Option<seq<MethodDeclaration>>, solution: seq<Project>)
    requires RunStages(nswag, download, clientFilePath, clientFile, solution).Success?
    ensures var st := RunStages(nswag, download, clientFilePath, clientFile, solution).value;
      && PropertyAt(nswag, ClientSection, "output") == Success(st.output)
      && PropertyAt(nswag, ClientSection, "className") == Success(st.className)
      && ExtractedRequests(nswag, download) == Success(st.requests)
      && GetRequestToMethodNameMapping(st.requests, clientFile, clientFilePath) == Success(st.bindings)
      && Collect(MethodNames(st.bindings), solution) == Success(st.collected)
      && FilterByDefinition(st.collected, st.className, clientFilePath) == Success(st.inDefinition)
      && FilterOutInvocationsInDefinition(st.inDefinition, st.className, clientFilePath) == Success(st.filtered)
      && CreateRequestToInvocationsDictionary(st.bindings, st.filtered) == Success(st.byRequest)
  {
    var output := PropertyAt(nswag, ClientSection, "output");
    assert output.Success?;
    var className := PropertyAt(nswag, ClientSection, "className");
    assert className.Success?;
    var requests := ExtractedRequests(nswag, download);
    assert requests.Success?;
    var bindings := GetRequestToMethodNameMapping(requests.value, clientFile, clientFilePath);
    assert bindings.Success?;
    var collected := Collect(MethodNames(bindings.value), solution);
    assert collected.Success?;
    var inDefinition := FilterByDefinition(collected.value, className.value, clientFilePath);
    assert inDefinition.Success?;
    var filtered := FilterOutInvocationsInDefinition(inDefinition.value, className.value, clientFilePath);
    assert filtered.Success?;
    var byRequest := CreateRequestToInvocationsDictionary(bindings.value, filtered.value);
    assert byRequest.Success?;
  }

  /** The two filters in a row keep every key, and under each the calls of
      ClientCalls. */
  lemma FiltersInARow(
    collected: InvocationIndex, className: string, clientFilePath: string,
    inDefinition: InvocationIndex, filtered: InvocationIndex)
    requires FilterByDefinition(collected, className, clientFilePath) == Success(inDefinition)
    requires FilterOutInvocationsInDefinition(inDefinition, className, clientFilePath) == Success(filtered)
    ensures filtered.Keys == collected.Keys
    ensures forall k :: k in filtered ==> filtered[k] == ClientCalls(collected[k], className, clientFilePath)
  {
    FilterByDefinitionValue(collected, className, clientFilePath, inDefinition);
    FilterOutInvocationsValue(inDefinition, className, clientFilePath, filtered);
    forall k | k in filtered
      ensures filtered[k] == ClientCalls(collected[k], className, clientFilePath)
    {
      assert inDefinition[k] == Filter(collected[k], ByClass(className));
    }
  }

  /** The counts of a successful run, from its stages. */
  lemma StageCounts(bindings: seq<Binding>, lists: InvocationIndex, byRequest: InvocationIndex)
    requires forall k :: k in MethodNames(bindings) ==> k in lists
    requires CreateRequestToInvocationsDictionary(bindings, lists) == Success(byRequest)
    ensures var counts := CalculateInvocationsCount(byRequest);
      && counts.Keys == (set b | b in bindings :: RequestToString(b.request))
      && forall i :: 0 <= i < |bindings| ==>
        counts[RequestToString(bindings[i].request)] == |lists[bindings[i].methodName]|
  {
    forall i | 0 <= i < |bindings|
      ensures RequestToString(bindings[i].request) in byRequest
      ensures byRequest[RequestToString(bindings[i].request)] == lists[bindings[i].methodName]
    {
      assert bindings[i] in bindings;
    }
  }

  /** A successful run's stages, stated as plain facts about their values. */
  lemma RunFacts(
    nswag: Json, download: string -> Json, clientFilePath: string,
    clientFile: Option<seq<MethodDeclaration>>, solution: seq<Project>)
    requires RunStages(nswag, download, clientFilePath, clientFile, solution).Success?
    ensures var st := RunStages(nswag, download, clientFilePath, clientFile, solution).value;
      && Coverage(nswag, download, clientFilePath, clientFile, solution) == Success(CalculateInvocationsCount(st.byRequest))
      && PropertyAt(nswag, ClientSection, "output") == Success(st.output)
      && PropertyAt(nswag, ClientSection, "className") == Success(st.className)
      && ExtractedRequests(nswag, download) == Success(st.requests)
      && Requests(st.bindings) == st.requests
      && (forall i :: 0 <= i < |st.requests| ==> Resolve(clientFile, clientFilePath, st.requests[i]) == Success(st.bindings[i].methodName))
      && Distinct(MethodNames(st.bindings))
      && st.filtered.Keys == (set n | n in MethodNames(st.bindings))
      && (forall k :: k in MethodNames(st.bindings) ==>
            k in st.filtered && st.filtered[k] == ClientCalls(SolutionCallsTo(k, solution), st.className, clientFilePath))
      && CreateRequestToInvocationsDictionary(st.bindings, st.filtered) == Success(st.byRequest)
  {
    var st := RunStages(nswag, download, clientFilePath, clientFile, solution).value;
    StagesOf(nswag, download, clientFilePath, clientFile, solution);
    MappingCharacterization(st.requests, clientFile, clientFilePath);
    CollectCharacterization(MethodNames(st.bindings), solution);
    FiltersInARow(st.collected, st.className, clientFilePath, st.inDefinition, st.filtered);
  }

  /** Helper: the endpoints the bindings cover are exactly the requests. */
  lemma BoundRequests(requests: seq<Request>, bindings: seq<Binding>)
    requires Requests(bindings) == requests
    ensures (set b | b in bindings :: RequestToString(b.request)) == (set x | x in requests :: RequestToString(x))
  {
    forall x | x in requests ensures RequestToString(x) in (set b | b in bindings :: RequestToString(b.request)) {
      var i :| 0 <= i < |requests| && requests[i] == x;
      assert bindings[i] in bindings;
    }
    forall b | b in bindings ensures b.request in requests {
      var i :| 0 <= i < |bindings| && bindings[i] == b;
      assert requests[i] == b.request;
    }
  }

  /** Each endpoint's count is the number of client calls to the method it
      resolves to, for any resolution that agrees with the bindings. */
  lemma CountsPerEndpoint(
    requests: seq<Request>, bindings: seq<Binding>, resolve: Request -> Result<string>,
    calls: string -> seq<InvocationDefinitionPair>, lists: InvocationIndex, byRequest: InvocationIndex)
    requires Requests(bindings) == requests
    requires forall i :: 0 <= i < |requests| ==> resolve(requests[i]) == Success(bindings[i].methodName)
    requires forall k :: k in MethodNames(bindings) ==> k in lists && lists[k] == calls(k)
    requires CreateRequestToInvocationsDictionary(bindings, lists) == Success(byRequest)
    ensures var counts := CalculateInvocationsCount(byRequest);
      && counts.Keys == (set x | x in requests :: RequestToString(x))
      && forall x :: x in requests ==> resolve(x).Success? && counts[RequestToString(x)] == |calls(resolve(x).value)|
  {
    StageCounts(bindings, lists, byRequest);
    BoundRequests(requests, bindings);
    var counts := CalculateInvocationsCount(byRequest);
    forall x | x in requests
      ensures resolve(x).Success? && counts[RequestToString(x)] == |calls(resolve(x).value)|
    {
      var i :| 0 <= i < |requests| && requests[i] == x;
      BoundListAt(bindings, lists, calls, i);
    }
  }

  /** Helper: the list of the i-th bound method, read through calls. */
  lemma BoundListAt(bindings: seq<Binding>, lists: InvocationIndex, calls: string -> seq<InvocationDefinitionPair>, i: nat)
    requires i < |bindings|
    requires forall k :: k in MethodNames(bindings) ==> k in lists && lists[k] == calls(k)
    ensures bindings[i].methodName in lists && lists[bindings[i].methodName] == calls(bindings[i].methodName)
  {
    assert MethodNames(bindings)[i] == bindings[i].methodName;
  }

  /** A successful run counts every extracted endpoint, and only those; the
      count of an endpoint is the number of calls, anywhere in the solution,
      to the client method bound to it that resolve to the client class and
      are not made from inside the client. */
  lemma CoverageCounts(
    nswag: Json, download: string -> Json, clientFilePath: string,
    clientFile: Option<seq<MethodDeclaration>>, solution: seq<Project>)
    requires Coverage(nswag, download, clientFilePath, clientFile, solution).Success?
    ensures PropertyAt(nswag, ClientSection, "output").Success?
    ensures ExtractedRequests(nswag, download).Success? && PropertyAt(nswag, ClientSection, "className").Success?
    ensures var counts := Coverage(nswag, download, clientFilePath, clientFile, solution).value;
      var requests := ExtractedRequests(nswag, download).value;
      var className := PropertyAt(nswag, ClientSection, "className").value;
      && counts.Keys == (set x | x in requests :: RequestToString(x))
      && forall x :: x in requests ==>
        && Resolve(clientFile, clientFilePath, x).Success?
        && counts[RequestToString(x)]
          == |ClientCalls(SolutionCallsTo(Resolve(clientFile, clientFilePath, x).value, solution), className, clientFilePath)|
  {
    var run := RunStages(nswag, download, clientFilePath, clientFile, solution);
    assert run.Success?;
    var st := run.value;
    RunFacts(nswag, download, clientFilePath, clientFile, solution);
    var resolve := x => Resolve(clientFile, clientFilePath, x);
    var calls := k => ClientCalls(SolutionCallsTo(k, solution), st.className, clientFilePath);
    CountsPerEndpoint(st.requests, st.bindings, resolve, calls, st.filtered, st.byRequest);
  }

  /** Helper: the bound names as a set, in the two forms the lemmas use. */
  lemma BoundNames(bindings: seq<Binding>)
    ensures (set n | n in MethodNames(bindings)) == (set b | b in bindings :: b.methodName)
  {
    forall n | n in MethodNames(bindings) ensures n in set b | b in bindings :: b.methodName {
      var i :| 0 <= i < |bindings| && MethodNames(bindings)[i] == n;
      assert bindings[i] in bindings;
    }
  }

  /** A successful run adds up: the counts sum to the number of calls that
      survive both filters. */
  lemma CoverageTotal(
    nswag: Json, download: string -> Json, clientFilePath: string,
    clientFile: Option<seq<MethodDeclaration>>, solution: seq<Project>)
    requires RunStages(nswag, download, clientFilePath, clientFile, solution).Success?
    ensures var st := RunStages(nswag, download, clientFilePath, clientFile, solution).value;
      Total(Coverage(nswag, download, clientFilePath, clientFile, solution).value)
        == Total(CalculateInvocationsCount(st.filtered))
  {
    var st := RunStages(nswag, download, clientFilePath, clientFile, solution).value;
    RunFacts(nswag, download, clientFilePath, clientFile, solution);
    BoundNames(st.bindings);
    CountsCoverAllPairs(st.bindings, st.filtered);
  }
}
