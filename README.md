# SwaggerCoverage in Dafny

SwaggerCoverage measures how well a .NET test solution exercises an HTTP API.
It reads an NSwag configuration (`nswag.json`) and downloads the OpenAPI
document it points to. It lists every endpoint (HTTP method and path) and
finds, in the NSwag-generated C# client, the one method that implements each
endpoint. It then collects every call of those methods across the solution,
filters out calls that do not reach the generated client or are made from
inside it, and counts the remaining calls per endpoint.

This project models that pipeline, stage by stage, and proves what each stage
promises:

- `Models` (`models.dfy`): the value types `Request`, `MethodInfo`,
  `InvocationLocation` and `InvocationDefinitionPair`. Covers their
  case-insensitive `Equals`, the inputs of their `GetHashCode`,
  `Request.ToString`, and `HashSet<Request>.Add`.
- `MethodAnalyzer` (`method_analyzer.dfy`):
  - path normalisation and the exactly-one-candidate lookup of
    `FindMethodName`, over an abstract list of method declarations (name,
    string literals of the body, comment trivia);
  - the collection loop of `MapInvocationsToDefinitionsAsync`, as a method
    with nested loops over projects, documents and already-resolved calls.
- `FilterUtils` (`filter_utils.dfy`): the two filters
  `FilterByDefinition` and `FilterOutInvocationsInDefinition`. Each
  FluentAssertions check becomes an explicit failure outcome.
- `SwaggerCoverageCore` (`swagger_coverage_core.dfy`): the endpoint→method
  binding and its uniqueness check, the per-endpoint invocation lists, and
  the counts.
- `SwaggerRequestExtractor` (`swagger_request_extractor.dfy`):
  - the section walk of `ExtractProperty`;
  - the property reads of `GetGeneratedClientFilePath` (the `output` path)
    and `GetGeneratedClientClassName`;
  - the url checks;
  - the loops that build the endpoint set from the `paths` table. Its shape
    is the Paths and Path Item Objects of the OpenAPI Specification 3.0.3,
    sections 4.7.8 and 4.7.9.

  All of it works over an already-parsed JSON tree.
- `CoveragePipeline` (`coverage_pipeline.dfy`): the composition order of the
  command-line entry point, and end-to-end facts about the counts.
- Shared support:
  - `Outcomes` (`outcomes.dfy`): `Option`, `Result`, and one error per
    exception or failed assertion of the source;
  - `Text` (`text.dfy`): the .NET string operations used, with ASCII case
    folding;
  - `Sequences` (`sequences.dfy`): LINQ `Where(...).ToList()`.

Modelling choices:

- An exception or a failed `Should()` is a `Failure(e)` result whose error
  names the check.
- A `Dictionary<string, List<InvocationDefinitionPair>>` is a
  `map<string, seq<InvocationDefinitionPair>>`.
- A `HashSet<Request>` is a sequence in insertion order in which no two
  requests are `Equals`.
- `BeEquivalentTo` on two such dictionaries means the same keys and, per
  key, the same multiset of pairs. Pairs are compared member by member with
  the members' own case-insensitive `Equals`.
- The steps that read files, download or parse are inputs of the model:
  - the generated client's path and its parsed declarations;
  - the parsed configuration;
  - `download`, which turns the url into the parsed OpenAPI document;
  - the loaded solution.

## Model

| member | source | states |
|---|---|---|
| Models.RequestEqualsObjectCases | models/Request.cs:23-28 | `Equals(object)` is false for null and for any non-`Request`; between requests it holds exactly when method and path both match ignoring case |
| Models.RequestEqualsObject | models/Request.cs:23-28 | `Equals(object)`: the argument is a request whose method and path equal this one's ignoring case; `RequestEqualsObjectCases` states its cases |
| Models.RequestEquals | models/Request.cs:25-27 | the Request-to-Request case of `Equals(object)`: method and path both equal ignoring case; its properties are in the rows around it |
| Models.RequestEqualsIsEquivalence | models/Request.cs:26-27 | request equality is reflexive, symmetric and transitive |
| Models.RequestHashConsistent | models/Request.cs:30-33 | two requests are equal exactly when their hash inputs (upper-cased method, lower-cased path) are equal, so equal requests hash alike |
| Models.RequestHashInputs | models/Request.cs:30-33 | the inputs of `GetHashCode`: the upper-cased method and the lower-cased path; `RequestHashConsistent` is its partner |
| Models.RequestToString | models/Request.cs:35-38 | method, one space, path; the round trip and injectivity below are its partners |
| Models.RequestToStringRoundTrip | models/Request.cs:35-38 | the rendering is method, one space, path: splitting at the first space gives back both fields when the method has no space |
| Models.RequestToStringInjective | models/Request.cs:35-38 | two requests whose methods have no space and whose renderings agree are identical |
| Models.HashSetAdd | models/Request.cs:23-33 | `HashSet<Request>.Add` keeps the set free of equal pairs, makes the request a member, loses nothing, adds nothing else, and grows by one exactly when no equal request was present |
| Models.CaseVariantsCollapse | models/Request.cs:23-33 | adding two requests that differ only in letter case leaves a single member, the first one |
| Models.MethodInfoEqualsCases | models/MethodInfo.cs:21-30 | `Equals(null)` is false, `Equals(object)` is false for a non-`MethodInfo` and otherwise agrees with the typed `Equals`, which compares file path and class ignoring case |
| Models.MethodInfoEquals | models/MethodInfo.cs:21-28 | null is unequal; otherwise file path and class both equal ignoring case |
| Models.MethodInfoEqualsObject | models/MethodInfo.cs:30 | `Equals(object)` is the typed `Equals` applied to the argument as a `MethodInfo`, or to null when it is not one; `MethodInfoEqualsCases` states its cases |
| Models.MethodInfoEqualsIsEquivalence | models/MethodInfo.cs:26-27 | definition equality is reflexive, symmetric and transitive |
| Models.MethodInfoHashConsistent | models/MethodInfo.cs:32-33 | equal exactly when the lower-cased file path and class agree, so equal definitions hash alike |
| Models.MethodInfoHashInputs | models/MethodInfo.cs:32-33 | the inputs of `GetHashCode`: the lower-cased file path and class; `MethodInfoHashConsistent` is its partner |
| Models.LocationEqualsCases | models/InvocationLocation.cs:28-39 | `Equals(null)` is false, `Equals(object)` delegates to the typed version, which needs path and class equal ignoring case and line and column equal |
| Models.LocationEquals | models/InvocationLocation.cs:28-37 | null is unequal; otherwise path and class equal ignoring case and line and column equal |
| Models.LocationEqualsObject | models/InvocationLocation.cs:39 | `Equals(object)` is the typed `Equals` applied to the argument as an `InvocationLocation`, or to null when it is not one; `LocationEqualsCases` states its cases |
| Models.LocationsApartDiffer | models/InvocationLocation.cs:35-36 | helper: two locations on different lines or columns are never equal |
| Models.LocationEqualsIsEquivalence | models/InvocationLocation.cs:33-36 | location equality is reflexive, symmetric and transitive |
| Models.LocationHashConsistent | models/InvocationLocation.cs:41-42 | equal exactly when the lower-cased strings, line and column agree, so equal locations hash alike |
| Models.LocationHashInputs | models/InvocationLocation.cs:41-42 | the inputs of `GetHashCode`: the lower-cased file path and class, the line and the column; `LocationHashConsistent` is its partner |
| Models.PairKeyIffEquivalent | models/InvocationDefinitionPair.cs:6-10 | two pairs are equivalent member by member exactly when their case-folded keys are equal |
| Text.EqualsIgnoreCaseIffLowerEqual | models/MethodInfo.cs:26-33 | comparing ignoring case is comparing the lower-cased strings |
| Text.EqualsIgnoreCaseIffUpperEqual | models/Request.cs:26-32 | comparing ignoring case is comparing the upper-cased strings |
| Text.EqualsIgnoreCase | models/Request.cs:26-27 | `string.Equals` with `OrdinalIgnoreCase`: same length and equal characters after case folding; the two lemmas above are its partners |
| Text.Upper | models/Request.cs:32 | `ToUpperInvariant`: same length, each character upper-cased |
| Text.Lower | models/Request.cs:32 | `ToLowerInvariant`: same length, each character lower-cased |
| Text.EndsWithIgnoreCase | FilterUtils.cs:36 | `EndsWith` with `OrdinalIgnoreCase`: the suffix is no longer than the string and equals its last characters ignoring case; `EndsWithIgnoreCaseRespectsFolding` is its partner |
| Text.ContainsIgnoreCase | MethodAnalyzer.cs:83 | `Contains` with `OrdinalIgnoreCase`: the text occurs at some position ignoring case; `ContainsIgnoreCaseIffLowerSubstring` is its partner |
| Text.IsWhiteSpaceOnly | MethodAnalyzer.cs:34 | `string.IsNullOrWhiteSpace` on a non-null string: every character is white space, so the empty string is blank |
| Text.EndsWithIgnoreCaseRespectsFolding | FilterUtils.cs:36 | two paths equal ignoring case end with the same suffixes ignoring case |
| Text.ContainsIgnoreCaseIffLowerSubstring | MethodAnalyzer.cs:83 | a case-insensitive `Contains` is a substring search on the lower-cased texts |
| Text.Split | SwaggerRequestExtractor.cs:36 | splitting gives at least one piece, and no piece holds the separator |
| Text.JoinSplit | SwaggerRequestExtractor.cs:36 | joining the pieces of a split with the separator gives back the input |
| Text.Join | SwaggerRequestExtractor.cs:36 | the pieces with the separator between them; `JoinSplit` shows it undoes `Split` |
| Sequences.Filter | FilterUtils.cs:27-29 | `Where(...).ToList()` keeps exactly the elements that pass, and is no longer than its input |
| Sequences.FilterIsSubsequence | FilterUtils.cs:60-66 | a filtered list is a subsequence of its input |
| Sequences.FilterMultiset | FilterUtils.cs:60-66 | a filtered list keeps each passing element as often as the input has it, and no failing one |
| Sequences.FilterIdempotent | FilterUtils.cs:60-66 | filtering twice with the same test is filtering once |
| Sequences.FilterStrictlyMonotone | FilterUtils.cs:25-41 | a test implied by another keeps strictly fewer elements once some element passes only the other |
| Sequences.FilterSameTest | FilterUtils.cs:25-41 | two tests that agree on every element give the same list |
| MethodAnalyzer.StripSlashes | MethodAnalyzer.cs:61-62 | at most one leading and one trailing slash are removed, the rest is a slice of the input, and a path with no slash at either end is unchanged |
| MethodAnalyzer.PreProcessPath | MethodAnalyzer.cs:59-67 | fails, naming the stripped path, exactly when it starts or ends with a quote; otherwise the result is the stripped path in double quotes |
| MethodAnalyzer.PreProcessPathRefusesItsOutput | MethodAnalyzer.cs:63-65 | a normalised path cannot be normalised again |
| MethodAnalyzer.PreProcessPathIgnoresOuterSlashes | MethodAnalyzer.cs:61-62 | a leading, a trailing or both surrounding slashes do not change the result |
| MethodAnalyzer.MethodContainsRequestMethod | MethodAnalyzer.cs:69-76 | a declaration with a body holding a string literal equal to the request method ignoring case; `NoBodyNoCandidate` is its partner |
| MethodAnalyzer.MethodContainsPathInComments | MethodAnalyzer.cs:78-84 | some single-line or block comment of the declaration contains the quoted path ignoring case |
| MethodAnalyzer.IsCandidate | MethodAnalyzer.cs:46-47 | a declaration passes both the request-method test and the path-in-comments test |
| MethodAnalyzer.Candidates | MethodAnalyzer.cs:44-48 | the declarations that pass both tests, in file order; `FindMethodNameUnique`, `FindMethodNameNone` and `FindMethodNameAmbiguous` are its partners |
| MethodAnalyzer.Names | MethodAnalyzer.cs:54 | the identifiers of the declarations, one per declaration, in order |
| MethodAnalyzer.FindMethodName | MethodAnalyzer.cs:30-57 | a success comes from a normalisable path, a non-blank file path and an existing file, and names a declaration of that file that passes both tests; the lemmas below pin down every outcome |
| MethodAnalyzer.NoBodyNoCandidate | MethodAnalyzer.cs:69-76 | a declaration without a body is never a candidate |
| MethodAnalyzer.FindMethodNameChecksPathFirst | MethodAnalyzer.cs:30-35 | a quoted path fails before the file path is looked at |
| MethodAnalyzer.FindMethodNameFileErrors | MethodAnalyzer.cs:34-38 | a blank file path fails first, then a missing file |
| MethodAnalyzer.FindMethodNameUnique | MethodAnalyzer.cs:44-56 | with exactly one candidate, its name is returned |
| MethodAnalyzer.FindMethodNameNone | MethodAnalyzer.cs:50-51 | with no candidate, the lookup fails naming the method and the quoted path |
| MethodAnalyzer.FindMethodNameAmbiguous | MethodAnalyzer.cs:53-54 | with two candidates, the lookup fails and the error lists exactly the names of all candidates, in file order, so both of them |
| MethodAnalyzer.FindMethodNameSound | MethodAnalyzer.cs:44-56 | a successful lookup returns the name of a declaration that is the only candidate |
| MethodAnalyzer.BuildPair | MethodAnalyzer.cs:121-162 | the recorded pair has the call's file, 1-based line and column, the innermost enclosing class or "Unknown", the first declaring file or "External or No Source", and the containing type or "Unknown" |
| MethodAnalyzer.RecordCall | MethodAnalyzer.cs:118-162 | a resolved call whose target name is a key appends its pair to that key's list; any other call changes nothing; `UntrackedCallIgnored` and `ScanCallsAppends` are its partners |
| MethodAnalyzer.Seed | MethodAnalyzer.cs:94 | the dictionary exists exactly when the names are distinct; its keys are the names, each with an empty list; a repeated name fails as a duplicate key |
| MethodAnalyzer.ScanCalls | MethodAnalyzer.cs:113-164 | scanning calls keeps the keys |
| MethodAnalyzer.ScanDocuments | MethodAnalyzer.cs:104-165 | scanning documents keeps the keys |
| MethodAnalyzer.ScanProjects | MethodAnalyzer.cs:99-166 | scanning projects keeps the keys |
| MethodAnalyzer.ScanDocumentsFailurePersists | MethodAnalyzer.cs:106-107 | a document without a syntax tree stops the scan with its error |
| MethodAnalyzer.ScanProjectsFailurePersists | MethodAnalyzer.cs:101-102 | a project without a compilation stops the scan with its error |
| MethodAnalyzer.Collect | MethodAnalyzer.cs:92-169 | a successful collection had distinct names, and its keys are exactly those names; `CollectCharacterization` gives the lists |
| MethodAnalyzer.RecordCalls | MethodAnalyzer.cs:111-164 | the loop over the calls of one syntax tree computes `ScanCalls` |
| MethodAnalyzer.RecordDocuments | MethodAnalyzer.cs:104-165 | the loop over the documents of one project computes `ScanDocuments` |
| MethodAnalyzer.MapInvocationsToDefinitions | MethodAnalyzer.cs:92-169 | the seeded dictionary and the nested loops compute `Collect` |
| MethodAnalyzer.ScanCallsAppends | MethodAnalyzer.cs:113-163 | scanning calls only appends to each tracked name's list the pairs of the calls to it, in order |
| MethodAnalyzer.ScanDocumentsAppends | MethodAnalyzer.cs:104-165 | scanning documents succeeds exactly when every document has a syntax tree, and then only appends the pairs of their calls |
| MethodAnalyzer.ScanProjectsAppends | MethodAnalyzer.cs:99-166 | scanning projects succeeds exactly when every project has a compilation, and then only appends the pairs of their calls |
| MethodAnalyzer.CollectCharacterization | MethodAnalyzer.cs:94-168 | collection succeeds exactly when the names are distinct and every project compiles; the keys are then exactly the names, and each list holds, in order, the pairs of every call in the solution resolved to that name (empty when there is none) |
| MethodAnalyzer.UntrackedCallIgnored | MethodAnalyzer.cs:115-118 | an unresolved call, or one to a name that is not a key, changes nothing |
| FilterUtils.FilterEachList | FilterUtils.cs:25-30 | the projection keeps every key and never lengthens a list |
| FilterUtils.ByClass | FilterUtils.cs:28 | the class test of stage A: the definition's class equals className, ordinally |
| FilterUtils.ByFile | FilterUtils.cs:36 | the file test of stage A: the definition's file path ends with the suffix, ignoring case |
| FilterUtils.Equivalent | FilterUtils.cs:41 | `BeEquivalentTo`: the same keys and, per key, the same multiset of pair keys; `PairKeyIffEquivalent`, `PairKeyPresent` and `PairKeyWitness` are its partners |
| FilterUtils.NotFromClient | FilterUtils.cs:63-64 | the test of stage B: keep a pair unless its call is made from className (ordinal) in a file ending with the suffix (ignoring case) |
| FilterUtils.NoCallFromDefiningClass | FilterUtils.cs:69-73 | no remaining call is made from the class that declares its target, ordinally; `FilterOutInvocationsOutcome` is its partner |
| FilterUtils.NoCallFromDefiningFile | FilterUtils.cs:76-80 | no remaining call is made from the file that declares its target, ignoring case; `FilterOutInvocationsOutcome` is its partner |
| FilterUtils.PairKeys | FilterUtils.cs:41 | the keys compared by `BeEquivalentTo`, one per pair, in order |
| FilterUtils.PairKeyPresent | FilterUtils.cs:41 | a pair in a list contributes its key to the list's multiset of keys |
| FilterUtils.PairKeyWitness | FilterUtils.cs:41 | a key in a list's multiset comes from an equivalent pair of that list |
| FilterUtils.FilterByDefinition | FilterUtils.cs:19-44 | a successful stage A keeps every key of its input |
| FilterUtils.FilterByDefinitionKeepsKeys | FilterUtils.cs:25-43 | stage A keeps every key, even one left with an empty list; each list is a subsequence of its input that keeps every pair defined in className (ordinal) as often as the input has it, and no other pair |
| FilterUtils.FilterByDefinitionAgreement | FilterUtils.cs:25-43 | when stage A succeeds, an input pair is defined in className exactly when it is defined in the client file, and the result is also what the file filter alone gives |
| FilterUtils.FilterByDefinitionFails | FilterUtils.cs:33-41 | a pair of className defined outside the client file makes stage A fail with the equivalence error |
| FilterUtils.FilterOutInvocationsInDefinition | FilterUtils.cs:54-83 | a successful stage B keeps every key of its input |
| FilterUtils.FilterOutInvocationsKeepsRest | FilterUtils.cs:60-66 | stage B keeps every key; each list is a subsequence of its input that drops exactly the calls made from inside the client, keeping every other pair with its multiplicity |
| FilterUtils.FilterOutInvocationsOutcome | FilterUtils.cs:60-82 | stage B succeeds exactly when no surviving call shares its target's class (ordinal) or file (ignoring case); the class check comes first |
| FilterUtils.FilterEachListIdempotent | FilterUtils.cs:60-66 | filtering every list twice with one test is filtering once |
| FilterUtils.FilterOutInvocationsIdempotent | FilterUtils.cs:54-83 | stage B applied to its own result returns it unchanged |
| SwaggerCoverageCore.ResolveAll | SwaggerCoverageCore.cs:56-59 | succeeds exactly when every endpoint resolves; then binds each endpoint, in order, to its own resolved name; otherwise fails with the error of the first endpoint that does not resolve |
| SwaggerCoverageCore.MethodNames | SwaggerCoverageCore.cs:69 | the bound method names, one per binding, in order |
| SwaggerCoverageCore.Requests | SwaggerCoverageCore.cs:56-59 | the bound endpoints, one per binding, in order |
| SwaggerCoverageCore.GetRequestToMethodNameMapping | SwaggerCoverageCore.cs:54-71 | a successful mapping binds exactly the given endpoints, in order, to pairwise distinct method names |
| SwaggerCoverageCore.MappingCharacterization | SwaggerCoverageCore.cs:54-71 | on success the mapping has one entry per endpoint, in order, each with `FindMethodName`'s answer, and the names are distinct; two endpoints resolving to the same method make it fail |
| SwaggerCoverageCore.CreateRequestToInvocationsDictionary | SwaggerCoverageCore.cs:73-91 | on success the keys are the endpoints' `ToString` and each entry holds, unchanged, the list under its bound method name |
| SwaggerCoverageCore.RequestDictionaryCharacterization | SwaggerCoverageCore.cs:78-81 | the dictionary is built exactly when every bound name is a key of the invocations; otherwise the lookup fails with the missing name, never counting it as zero |
| SwaggerCoverageCore.CalculateInvocationsCount | SwaggerCoverageCore.cs:9-21 | one count per key, never negative, and zero exactly when no call is listed under the key |
| SwaggerCoverageCore.TotalRemove | SwaggerCoverageCore.cs:11-14 | the sum of the counts is the count of any one key plus the sum over the others |
| SwaggerCoverageCore.CountsOfUpdate | SwaggerCoverageCore.cs:11-14 | a new entry adds one count, its list's length |
| SwaggerCoverageCore.CountsAddUp | SwaggerCoverageCore.cs:78-81 | the counts of the per-endpoint dictionary add up to the pairs under the bound names |
| SwaggerCoverageCore.Without | SwaggerCoverageCore.cs:11-14 | helper: the dictionary minus one key |
| SwaggerCoverageCore.CountsWithout | SwaggerCoverageCore.cs:11-14 | counting without one key is the counts without that key |
| SwaggerCoverageCore.BoundPairsIgnoresOthers | SwaggerCoverageCore.cs:78-81 | entries under names nobody is bound to do not count |
| SwaggerCoverageCore.BoundPairsCoverAll | SwaggerCoverageCore.cs:78-81 | with distinct bound names that are exactly the keys, the pairs under the bound names are all the pairs |
| SwaggerCoverageCore.CountsCoverAllPairs | SwaggerCoverageCore.cs:11-14 | with unique method names, the sum of all counts equals the number of filtered pairs |
| SwaggerCoverageCore.TotalNonNegative | SwaggerCoverageCore.cs:11-14 | a sum of counts is never negative |
| SwaggerCoverageCore.ZeroTotalIffNoCalls | SwaggerCoverageCore.cs:11-14 | the counts sum to zero exactly when no list holds a call |
| SwaggerRequestExtractor.LastMember | SwaggerRequestExtractor.cs:41 | the value of the last member with the name, None exactly when no member has it |
| SwaggerRequestExtractor.TryGetProperty | SwaggerRequestExtractor.cs:41 | only an object can be asked, anything else fails as not an object; a found value is the value of a member with that name |
| SwaggerRequestExtractor.GetString | SwaggerRequestExtractor.cs:49 | readable exactly for a string or null; None exactly for null, otherwise the string itself |
| SwaggerRequestExtractor.Descend | SwaggerRequestExtractor.cs:39-44 | a failed walk names a section of the path, or meets a value that is not an object |
| SwaggerRequestExtractor.DescendStopsAtFirstGap | SwaggerRequestExtractor.cs:39-44 | a failed walk stops at the first section it cannot enter: every section before it was found, and the value reached there is not an object or has no member of that name, which the error names |
| SwaggerRequestExtractor.PropertyAt | SwaggerRequestExtractor.cs:36-52 | a successful read is never blank; every failure is a missing section of the path, a missing property, a null, non-string or blank value, or a non-object |
| SwaggerRequestExtractor.PropertyAtCases | SwaggerRequestExtractor.cs:36-52 | for any configuration: the walk's failure is passed on; a section that is not an object fails as such; otherwise a missing property, a null, a blank string and any other non-string each give their own failure, and a non-blank string is returned unchanged |
| SwaggerRequestExtractor.ExtractProperty | SwaggerRequestExtractor.cs:36-52 | the loop over the sections and the property read compute `PropertyAt` |
| SwaggerRequestExtractor.DescendNest | SwaggerRequestExtractor.cs:39-44 | walking a section path through a configuration built along it reaches the leaf |
| SwaggerRequestExtractor.PropertyAtRoundTrip | SwaggerRequestExtractor.cs:36-52 | a non-blank string written under a section path is read back unchanged |
| SwaggerRequestExtractor.PropertyAtRefusesEmpty | SwaggerRequestExtractor.cs:49-50 | a null property fails as empty, a blank one as blank |
| SwaggerRequestExtractor.GetGeneratedClientClassName | SwaggerRequestExtractor.cs:85-88 | reads "className" under "codeGenerators.openApiToCSharpClient", never blank |
| SwaggerRequestExtractor.GetGeneratedClientOutput | SwaggerRequestExtractor.cs:65-67 | the first step of `GetGeneratedClientFilePath`: reads "output" under "codeGenerators.openApiToCSharpClient" with the property checks, never blank |
| SwaggerRequestExtractor.IsValidHttpMethod | SwaggerRequestExtractor.cs:165-174 | one of the seven upper-case method names; `AcceptedKeys` and `RejectedKeys` are its partners |
| SwaggerRequestExtractor.UpperKeepsCapitals | SwaggerRequestExtractor.cs:143 | upper-casing leaves a word of capitals alone |
| SwaggerRequestExtractor.MatchesMethodName | SwaggerRequestExtractor.cs:143-146 | a key matches a method name in any case exactly when its upper-cased form is that name |
| SwaggerRequestExtractor.AcceptedKeys | SwaggerRequestExtractor.cs:143-174 | an operation key is kept exactly when it is one of the seven method names in some letter case |
| SwaggerRequestExtractor.RejectedKeys | SwaggerRequestExtractor.cs:165-174 | `trace` and `parameters` are not kept |
| SwaggerRequestExtractor.AddOperations | SwaggerRequestExtractor.cs:141-154 | the inner loop keeps the set free of equal requests and loses none |
| SwaggerRequestExtractor.AddPaths | SwaggerRequestExtractor.cs:136-155 | the outer loop yields a set with no two equal requests |
| SwaggerRequestExtractor.SwaggerUrl | SwaggerRequestExtractor.cs:107-119 | a url that passes the checks is not blank; `SwaggerUrlCases` gives every outcome |
| SwaggerRequestExtractor.SwaggerUrlCases | SwaggerRequestExtractor.cs:107-119 | for any configuration: a failed walk through `documentGenerator` and `fromDocument` passes its error on; a section that is not an object fails as such; otherwise, by the last `url` member, a missing one fails as missing, a null or blank one as empty, a string is returned, and any other value cannot be read |
| SwaggerRequestExtractor.ExtractedRequests | SwaggerRequestExtractor.cs:95-158 | a successful extraction had a readable url, and holds no two equal requests |
| SwaggerRequestExtractor.ExtractRequests | SwaggerRequestExtractor.cs:95-158 | computes `ExtractedRequests`, a set with no two equal requests |
| SwaggerRequestExtractor.CollectPaths | SwaggerRequestExtractor.cs:136-155 | the loop over the path entries computes `AddPaths` |
| SwaggerRequestExtractor.CollectOperations | SwaggerRequestExtractor.cs:141-154 | the loop over the operation keys of one path computes `AddOperations` |
| SwaggerRequestExtractor.AddPathsFailurePersists | SwaggerRequestExtractor.cs:136-139 | a path entry whose value is not an object stops the loop with that error |
| SwaggerRequestExtractor.AddOperationsSound | SwaggerRequestExtractor.cs:141-153 | every request the inner loop adds is a valid upper-cased key of that path |
| SwaggerRequestExtractor.AddOperationsComplete | SwaggerRequestExtractor.cs:141-153 | every valid key of the path is in the set afterwards, up to case |
| SwaggerRequestExtractor.AddPathsCharacterization | SwaggerRequestExtractor.cs:134-157 | the set exists exactly when every path value is an object; it then holds (upper-cased method, path) for every valid key of every path, up to case, nothing else, and no two equal requests |
| SwaggerRequestExtractor.SwaggerUrlCharacterization | SwaggerRequestExtractor.cs:107-119 | missing `documentGenerator`, `fromDocument` or `url` fail in that order; a null, empty or blank url fails as empty; a non-string url cannot be read |
| SwaggerRequestExtractor.ExtractedRequestsOutcome | SwaggerRequestExtractor.cs:116-136 | url failures are passed on; a downloaded document that is not an object, or whose `paths` is not an object, fails as such; one without `paths` fails as a missing section; otherwise the endpoints are those the paths loop builds from the table's entries |
| CoveragePipeline.RunCoverage | Program.cs:20-40 | running the stages in the entry point's order computes `Coverage` |
| CoveragePipeline.RunStages | Program.cs:20-38 | the stages in the entry point's order, starting with the client's output path, each fed the previous result, stopping at the first failure; `StagesOf` and `RunFacts` state what a success holds |
| CoveragePipeline.Coverage | Program.cs:20-40 | the counts of a successful run; `CoverageCounts` and `CoverageTotal` state what they are |
| CoveragePipeline.StagesOf | Program.cs:20-38 | every stage of a successful run, from the output path read on, succeeded with the value handed to the next one |
| CoveragePipeline.FiltersInARow | Program.cs:32-35 | after both filters the keys are the collected names, and each list holds the calls defined in the client class that are not made from inside the client |
| CoveragePipeline.StageCounts | Program.cs:38-40 | the counts are keyed by the bound endpoints, each the length of its method's list |
| CoveragePipeline.RunFacts | Program.cs:20-38 | a successful run read the client's output path, binds each endpoint to `FindMethodName`'s answer, with distinct names, and its filtered lists are the client calls of each method |
| CoveragePipeline.BoundRequests | Program.cs:25-38 | helper: the bound endpoints are the extracted ones |
| CoveragePipeline.CountsPerEndpoint | Program.cs:38-40 | each endpoint's count is the number of client calls to the method it resolves to |
| CoveragePipeline.BoundListAt | Program.cs:29-35 | helper: every bound method has its filtered list |
| CoveragePipeline.CoverageCounts | Program.cs:20-40 | a successful run counts every extracted endpoint and only those; an endpoint's count is the number of calls anywhere in the solution to its client method that target the client class and are not made from inside the client |
| CoveragePipeline.BoundNames | Program.cs:29 | helper: the names handed to the collector are the bound method names |
| CoveragePipeline.CoverageTotal | Program.cs:35-40 | the counts of a successful run sum to the number of calls that survive both filters |
| CoveragePipeline.CoverageReadsOutputFirst | SwaggerCoverageCore.cs:39-43 | when the client's output path cannot be read, the run fails with that error, before anything else is read |

## Left out

- Reading files, checking that they exist, downloading and JSON parsing
  (`File.*`, `HttpClient`, `JsonDocument.Parse`, the `JsonException`
  wrapping). The model starts from parsed values. `download` stands for
  fetching and parsing the OpenAPI document. The generated client is given
  as its declarations, or None when the file does not exist.
- The checks on `nswagJsonPath`, and the file-system half of
  `GetGeneratedClientFilePath`. The model reads and checks the `output`
  property first, as the source does. Resolving it against the configuration's
  directory (`Path.GetFullPath`) and `File.Exists` are left out; the resolved
  path is the input `clientFilePath`.
- C# parsing, MSBuild and the Roslyn semantic model (`RegisterMSBuild`,
  `MSBuildWorkspace`, `GetSymbolInfo`). They are replaced by:
  - method declarations;
  - per document, the calls with their already-resolved targets and
    enclosing classes.
- `async`/`await`: the awaits are sequential, so the model is synchronous.
- `ExtractClientInfo`, `GetAllRequestsFromSwaggerAsync`,
  `ReqCountDictionaryToDataframe`, the `debug` console output, sorting,
  CSV export and plotting. They are thin wrappers and output.
- Unicode case mapping. `OrdinalIgnoreCase`, `ToLowerInvariant` and
  `ToUpperInvariant` are ASCII case folding.
- `HashCode.Combine` itself: a hash is represented by the tuple of its
  inputs.
- Enumeration order of `HashSet` and `Dictionary`: taken as insertion
  order, which is what .NET gives when nothing is removed.
- Reference identity of `InvocationDefinitionPair` objects. Pairs are
  values, and a list keeps repeated pairs as separate entries.
- SwaggerCoverageCore.RequestDictionaryCharacterization: stated only for
  HTTP method names without a space. The seven method names kept have none,
  so two distinct endpoints never render to the same dictionary key. The
  duplicate-key failure of `ToDictionary` is modelled in
  `CreateRequestToInvocationsDictionary` but not characterised further.
- SwaggerCoverageCore.ResolveAll: `requests.ToDictionary` throws on a repeated
  key, but the endpoints come from a `HashSet<Request>`, so no key repeats.
  The model has no failure for it; `MappingCharacterization` takes the
  no-duplicates fact as its precondition.
- SwaggerCoverageCore.CalculateInvocationsCount: counts are unbounded
  integers; the 32-bit `int` of `List.Count` is not modelled, since a list
  cannot exceed it.
- MethodAnalyzer.BuildPair: line and column are unbounded; the overflow of
  `Line + 1` at `int.MaxValue` is not modelled.
