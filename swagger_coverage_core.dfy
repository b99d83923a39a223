/** SwaggerCoverageCore: binding each endpoint to its client method, looking
    up each endpoint's calls, and counting them. */
module SwaggerCoverageCore {
  import opened Outcomes
  import opened Text
  import opened Models
  import opened Sequences
  import opened MethodAnalyzer

  /** One entry of Dictionary<Request, string>: an endpoint and the client
      method that implements it. A sequence of bindings lists the entries in
      enumeration order. */
  datatype Binding = Binding(request: Request, methodName: string)

  /** FindMethodName for one endpoint. */
  function Resolve(clientFile: Option<seq<MethodDeclaration>>, clientFilePath: string, r: Request): Result<string> {
    FindMethodName(clientFile, clientFilePath, r.httpMethod, r.path)
  }

  /** requests.ToDictionary(rr => rr, rr => FindMethodName(...)), with
      resolve standing for the FindMethodName call: resolves the endpoints in
      order and stops at the first that cannot be resolved (no key repeats,
      since the requests come from a set). */
  function ResolveAll(requests: seq<Request>, resolve: Request -> Result<string>): (r: Result<seq<Binding>>)
    ensures r.Success? <==> forall i :: 0 <= i < |requests| ==> resolve(requests[i]).Success?
    ensures r.Success? ==>
      && |r.value| == |requests|
      && forall i :: 0 <= i < |requests| ==>
        r.value[i].request == requests[i] && resolve(requests[i]) == Success(r.value[i].methodName)
    ensures r.Failure? ==> exists i ::
      && 0 <= i < |requests|
      && resolve(requests[i]) == Failure(r.error)
      && forall j :: 0 <= j < i ==> resolve(requests[j]).Success?
  {
    if requests == [] then Success([])
    else
      var name :- resolve(requests[0]);
      var rest :- ResolveAll(requests[1..], resolve);
      Success([Binding(requests[0], name)] + rest)
  }

  function MethodNames(bindings: seq<Binding>): (names: seq<string>)
    ensures |names| == |bindings|
    ensures forall i :: 0 <= i < |bindings| ==> names[i] == bindings[i].methodName
  {
    seq(|bindings|, i requires 0 <= i < |bindings| => bindings[i].methodName)
  }

  function Requests(bindings: seq<Binding>): (requests: seq<Request>)
    ensures |requests| == |bindings|
    ensures forall i :: 0 <= i < |bindings| ==> requests[i] == bindings[i].request
  {
    seq(|bindings|, i requires 0 <= i < |bindings| => bindings[i].request)
  }

  /** GetRequestToMethodNameMapping: the binding, refused unless every method
      name is bound to one request only. */
  function GetRequestToMethodNameMapping(
    requests: seq<Request>, clientFile: Option<seq<MethodDeclaration>>, clientFilePath: string): (r: Result<seq<Binding>>)
    ensures r.Success? ==> Requests(r.value) == requests && Distinct(MethodNames(r.value))
  {
    var bindings :- ResolveAll(requests, r => Resolve(clientFile, clientFilePath, r));
    if Distinct(MethodNames(bindings)) then Success(bindings) else Failure(NonUniqueMethodNames)
  }

  /** The mapping holds one entry per endpoint, in order, each bound to the
      name FindMethodName gives it, and no two endpoints share a name; two
      endpoints resolving to one method make it fail. */
  lemma MappingCharacterization(
    requests: seq<Request>, clientFile: Option<seq<MethodDeclaration>>, clientFilePath: string)
    requires NoDuplicateRequests(requests)
    ensures var r := GetRequestToMethodNameMapping(requests, clientFile, clientFilePath);
      && (r.Success? ==>
            && Requests(r.value) == requests
            && NoDuplicateRequests(Requests(r.value))
            && Distinct(MethodNames(r.value))
            && forall i :: 0 <= i < |requests| ==> Resolve(clientFile, clientFilePath, requests[i]) == Success(r.value[i].methodName))
      && (forall i, j :: 0 <= i < j < |requests| && Resolve(clientFile, clientFilePath, requests[i]).Success?
            && Resolve(clientFile, clientFilePath, requests[i]) == Resolve(clientFile, clientFilePath, requests[j])
            ==> r.Failure?)
  {
    var r := GetRequestToMethodNameMapping(requests, clientFile, clientFilePath);
    if r.Success? {
      assert Requests(r.value) == requests;
    }
  }

  /** CreateRequestToInvocationsDictionary: each entry keyed by the
      endpoint's ToString, holding the list found under its method name; a
      name missing from the dictionary fails the lookup, a key met twice
      fails the insertion. Entries are added in enumeration order. */
  function CreateRequestToInvocationsDictionary(bindings: seq<Binding>, invocations: InvocationIndex): (r: Result<InvocationIndex>)
    ensures r.Success? ==> r.value.Keys == set b | b in bindings :: RequestToString(b.request)
    ensures r.Success? ==> forall b :: b in bindings ==>
      b.methodName in invocations && r.value[RequestToString(b.request)] == invocations[b.methodName]
  {
    if bindings == [] then Success(map[])
    else
      var entries :- CreateRequestToInvocationsDictionary(bindings[..|bindings| - 1], invocations);
      var b := bindings[|bindings| - 1];
      assert bindings == bindings[..|bindings| - 1] + [b];
      if b.methodName !in invocations then Failure(KeyNotFound(b.methodName))
      else
        var key := RequestToString(b.request);
        if key in entries then Failure(DuplicateKey(key))
        else Success(entries[key := invocations[b.methodName]])
  }

  /** CalculateInvocationsCount: each key to the number of pairs under it. */
  function CalculateInvocationsCount(requestsToInvocations: InvocationIndex): (counts: map<string, int>)
    ensures counts.Keys == requestsToInvocations.Keys
    ensures forall k :: k in counts ==> counts[k] >= 0 && (counts[k] == 0 <==> requestsToInvocations[k] == [])
  {
    map k | k in requestsToInvocations :: |requestsToInvocations[k]|
  }

  predicate NoSpaceInMethods(bindings: seq<Binding>) {
    forall i :: 0 <= i < |bindings| ==> ' ' !in bindings[i].request.httpMethod
  }

  /** With endpoints no two of which are equal and HTTP method names free of
      spaces, the dictionary is built exactly when every bound name is a key
      of the invocations, and then every endpoint's entry is the list of its
      method, unchanged; a missing name fails the lookup rather than counting
      as zero. */
  lemma {:induction false} RequestDictionaryCharacterization(bindings: seq<Binding>, invocations: InvocationIndex)
    requires NoDuplicateRequests(Requests(bindings)) && NoSpaceInMethods(bindings)
    ensures var r := CreateRequestToInvocationsDictionary(bindings, invocations);
      && (r.Success? <==> forall i :: 0 <= i < |bindings| ==> bindings[i].methodName in invocations)
      && (r.Failure? ==> r.error.KeyNotFound? && r.error.key !in invocations)
  {
    if bindings != [] {
      var prefix := bindings[..|bindings| - 1];
      var b := bindings[|bindings| - 1];
      assert Requests(prefix) == Requests(bindings)[..|bindings| - 1];
      RequestDictionaryCharacterization(prefix, invocations);
      var before := CreateRequestToInvocationsDictionary(prefix, invocations);
      if before.Success? && b.methodName in invocations {
        var key := RequestToString(b.request);
        forall c | c in prefix ensures RequestToString(c.request) != key {
          var i :| 0 <= i < |prefix| && prefix[i] == c;
          assert Requests(bindings)[i] == c.request;
          assert Requests(bindings)[|bindings| - 1] == b.request;
          RequestEqualsIsEquivalence(c.request, c.request, c.request);
          if RequestToString(c.request) == key {
            RequestToStringInjective(c.request, b.request);
            assert false;
          }
        }
      }
    }
  }

  // --------------------------------------------------------------- totals

  /** The sum of the values of a map. */
  ghost function Total(counts: map<string, int>): int
    decreases |counts.Keys|
  {
    if counts == map[] then 0
    else
      var k :| k in counts;
      counts[k] + Total(counts - {k})
  }

  /** The sum does not depend on the key removed first. */
  lemma {:induction false} TotalRemove(counts: map<string, int>, k: string)
    requires k in counts
    ensures Total(counts) == counts[k] + Total(counts - {k})
    decreases |counts.Keys|
  {
    var j :| j in counts && Total(counts) == counts[j] + Total(counts - {j});
    if j != k {
      var rest := counts - {j};
      TotalRemove(rest, k);
      TotalRemove(counts - {k}, j);
      assert rest - {k} == (counts - {k}) - {j};
    }
  }

  /** Adding one new entry adds one count. */
  lemma CountsOfUpdate(before: InvocationIndex, key: string, pairs: seq<InvocationDefinitionPair>)
    requires key !in before
    ensures var counts := CalculateInvocationsCount(before[key := pairs]);
      key in counts && counts[key] == |pairs| && counts - {key} == CalculateInvocationsCount(before)
  {
  }

  /** The number of pairs under the bound method names, endpoint by endpoint. */
  function BoundPairs(bindings: seq<Binding>, invocations: InvocationIndex): int {
    if bindings == [] then 0
    else
      var b := bindings[|bindings| - 1];
      BoundPairs(bindings[..|bindings| - 1], invocations)
        + (if b.methodName in invocations then |invocations[b.methodName]| else 0)
  }

  /** Every count of the result adds up to the pairs under the bound names. */
  lemma {:induction false} CountsAddUp(bindings: seq<Binding>, invocations: InvocationIndex)
    requires CreateRequestToInvocationsDictionary(bindings, invocations).Success?
    ensures Total(CalculateInvocationsCount(CreateRequestToInvocationsDictionary(bindings, invocations).value))
      == BoundPairs(bindings, invocations)
  {
    if bindings != [] {
      var prefix := bindings[..|bindings| - 1];
      var b := bindings[|bindings| - 1];
      CountsAddUp(prefix, invocations);
      var before := CreateRequestToInvocationsDictionary(prefix, invocations).value;
      var after := CreateRequestToInvocationsDictionary(bindings, invocations).value;
      var key := RequestToString(b.request);
      assert key !in before && after == before[key := invocations[b.methodName]];
      CountsOfUpdate(before, key, invocations[b.methodName]);
      TotalRemove(CalculateInvocationsCount(after), key);
    }
  }

  /** The invocations dictionary restricted to the keys other than name. */
  function Without(invocations: InvocationIndex, name: string): (r: InvocationIndex)
    ensures r.Keys == invocations.Keys - {name}
  {
    map k | k in invocations && k != name :: invocations[k]
  }

  lemma CountsWithout(invocations: InvocationIndex, name: string)
    requires name in invocations
    ensures CalculateInvocationsCount(Without(invocations, name)) == CalculateInvocationsCount(invocations) - {name}
  {
  }

  lemma {:induction false} BoundPairsIgnoresOthers(bindings: seq<Binding>, invocations: InvocationIndex, name: string)
    requires forall i :: 0 <= i < |bindings| ==> bindings[i].methodName != name
    ensures BoundPairs(bindings, Without(invocations, name)) == BoundPairs(bindings, invocations)
  {
    if bindings != [] {
      BoundPairsIgnoresOthers(bindings[..|bindings| - 1], invocations, name);
    }
  }

  /** Helper: dropping the last binding leaves distinct names that are
      exactly the keys other than its own. */
  lemma PrefixBindings(bindings: seq<Binding>, invocations: InvocationIndex)
    requires bindings != []
    requires Distinct(MethodNames(bindings))
    requires invocations.Keys == set b | b in bindings :: b.methodName
    ensures var prefix := bindings[..|bindings| - 1];
      var name := bindings[|bindings| - 1].methodName;
      && name in invocations
      && Distinct(MethodNames(prefix))
      && Without(invocations, name).Keys == (set c | c in prefix :: c.methodName)
      && forall i :: 0 <= i < |prefix| ==> prefix[i].methodName != name
  {
    var prefix := bindings[..|bindings| - 1];
    var b := bindings[|bindings| - 1];
    var rest := Without(invocations, b.methodName);
    assert b in bindings;
    forall i | 0 <= i < |prefix| ensures prefix[i].methodName != b.methodName {
      assert MethodNames(bindings)[i] != MethodNames(bindings)[|bindings| - 1];
    }
    assert MethodNames(prefix) == MethodNames(bindings)[..|bindings| - 1];
    forall k | k in rest ensures k in set c | c in prefix :: c.methodName {
      var c :| c in bindings && c.methodName == k;
      if c != b {
        var i :| 0 <= i < |bindings| && bindings[i] == c;
        assert i != |bindings| - 1;
        assert prefix[i] == c;
      }
    }
  }

  /** When the bound names are distinct and are exactly the keys of the
      filtered dictionary (as the collector's seeding makes them), the counts
      sum to the total number of filtered pairs. */
  lemma {:induction false} BoundPairsCoverAll(bindings: seq<Binding>, invocations: InvocationIndex)
    requires Distinct(MethodNames(bindings))
    requires invocations.Keys == set b | b in bindings :: b.methodName
    ensures BoundPairs(bindings, invocations) == Total(CalculateInvocationsCount(invocations))
  {
    if bindings == [] {
      assert invocations == map[];
      assert CalculateInvocationsCount(invocations) == map[];
    } else {
      var prefix := bindings[..|bindings| - 1];
      var name := bindings[|bindings| - 1].methodName;
      PrefixBindings(bindings, invocations);
      BoundPairsCoverAll(prefix, Without(invocations, name));
      BoundPairsIgnoresOthers(prefix, invocations, name);
      CountsWithout(invocations, name);
      TotalRemove(CalculateInvocationsCount(invocations), name);
    }
  }

  /** The end-to-end sum: with unique method names seeded as the keys of the
      filtered dictionary, the counts add up to the number of filtered pairs. */
  lemma CountsCoverAllPairs(bindings: seq<Binding>, invocations: InvocationIndex)
    requires Distinct(MethodNames(bindings))
    requires invocations.Keys == set b | b in bindings :: b.methodName
    requires CreateRequestToInvocationsDictionary(bindings, invocations).Success?
    ensures Total(CalculateInvocationsCount(CreateRequestToInvocationsDictionary(bindings, invocations).value))
      == Total(CalculateInvocationsCount(invocations))
  {
    CountsAddUp(bindings, invocations);
    BoundPairsCoverAll(bindings, invocations);
  }

  /** A sum of counts is never negative. */
  lemma {:induction false} TotalNonNegative(counts: map<string, int>)
    requires forall k :: k in counts ==> counts[k] >= 0
    ensures Total(counts) >= 0
    decreases |counts.Keys|
  {
    if counts != map[] {
      var k :| k in counts;
      TotalRemove(counts, k);
      TotalNonNegative(counts - {k});
    }
  }

  /** The counts sum to zero exactly when no list holds a call: no endpoint
      is covered at all only when nothing calls the client. */
  lemma {:induction false} ZeroTotalIffNoCalls(invocations: InvocationIndex)
    ensures Total(CalculateInvocationsCount(invocations)) == 0 <==> forall k :: k in invocations ==> invocations[k] == []
    decreases |invocations.Keys|
  {
    if invocations == map[] {
      assert CalculateInvocationsCount(invocations) == map[];
    } else {
      var k :| k in invocations;
      var rest := Without(invocations, k);
      TotalRemove(CalculateInvocationsCount(invocations), k);
      CountsWithout(invocations, k);
      TotalNonNegative(CalculateInvocationsCount(rest));
      ZeroTotalIffNoCalls(rest);
      assert forall j :: j in rest ==> rest[j] == invocations[j];
    }
  }
}
