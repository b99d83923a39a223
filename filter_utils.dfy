/** FilterUtils: the two filters applied to the collected dictionary, with the
    assertions that guard them. Each builds a fresh dictionary; the input is
    a value and is never changed. */
module FilterUtils {
  import opened Outcomes
  import opened Text
  import opened Models
  import opened Sequences

  /** The pair resolves to a method of the class className (ordinal). */
  predicate DefinedInClass(p: InvocationDefinitionPair, className: string) {
    p.definition.containingClass == className
  }

  /** The pair resolves to a method declared in a file whose path ends with
      suffix, ignoring case. */
  predicate DefinedInFile(p: InvocationDefinitionPair, suffix: string) {
    EndsWithIgnoreCase(p.definition.filePath, suffix)
  }

  /** The call itself sits in the class className of a file ending with
      suffix: a call made from inside the generated client. */
  predicate CalledFromClient(p: InvocationDefinitionPair, className: string, suffix: string) {
    p.invocation.containingClass == className && EndsWithIgnoreCase(p.invocation.filePath, suffix)
  }

  /** The three tests as the Where clauses apply them. */
  function ByClass(className: string): InvocationDefinitionPair -> bool {
    p => DefinedInClass(p, className)
  }

  function ByFile(suffix: string): InvocationDefinitionPair -> bool {
    p => DefinedInFile(p, suffix)
  }

  function NotFromClient(className: string, suffix: string): InvocationDefinitionPair -> bool {
    p => !CalledFromClient(p, className, suffix)
  }

  /** results.ToDictionary(kvp => kvp.Key, kvp => kvp.Value.Where(keep).ToList()). */
  function FilterEachList(results: InvocationIndex, keep: InvocationDefinitionPair -> bool): (r: InvocationIndex)
    ensures r.Keys == results.Keys
    ensures forall k :: k in r ==> |r[k]| <= |results[k]|
  {
    map k | k in results :: Filter(results[k], keep)
  }

  function PairKeys(s: seq<InvocationDefinitionPair>): (keys: seq<((string, string, int, int), (string, string))>)
    ensures |keys| == |s|
    ensures forall i :: 0 <= i < |s| ==> keys[i] == PairKey(s[i])
  {
    seq(|s|, i requires 0 <= i < |s| => PairKey(s[i]))
  }

  /** BeEquivalentTo on two such dictionaries: the same keys, and under each
      key lists that match one to one, in any order, each pair compared
      member by member with the members' own Equals. */
  predicate Equivalent(a: InvocationIndex, b: InvocationIndex) {
    a.Keys == b.Keys && forall k :: k in a ==> multiset(PairKeys(a[k])) == multiset(PairKeys(b[k]))
  }

  /** Stage A, FilterByDefinition: filter by the definition's class, filter
      by the definition's file, require the two to agree, return the first. */
  function FilterByDefinition(results: InvocationIndex, className: string, suffix: string): (r: Result<InvocationIndex>)
    ensures r.Success? ==> r.value.Keys == results.Keys
  {
    var byClass := FilterEachList(results, ByClass(className));
    var byPath := FilterEachList(results, ByFile(suffix));
    if Equivalent(byClass, byPath) then Success(byClass) else Failure(InconsistentDefinitions)
  }

  /** No remaining call is made from the class that declares its target. */
  predicate NoCallFromDefiningClass(index: InvocationIndex) {
    forall k, p :: k in index && p in index[k] ==> p.invocation.containingClass != p.definition.containingClass
  }

  /** No remaining call is made from the file that declares its target. */
  predicate NoCallFromDefiningFile(index: InvocationIndex) {
    forall k, p :: k in index && p in index[k] ==> !EqualsIgnoreCase(p.invocation.filePath, p.definition.filePath)
  }

  /** Stage B, FilterOutInvocationsInDefinition: drop the calls made from
      inside the client, then check the two assertions in order. */
  function FilterOutInvocationsInDefinition(results: InvocationIndex, className: string, suffix: string): (r: Result<InvocationIndex>)
    ensures r.Success? ==> r.value.Keys == results.Keys
  {
    var filtered := FilterEachList(results, NotFromClient(className, suffix));
    if !NoCallFromDefiningClass(filtered) then Failure(InvocationClassMatchesDefinition)
    else if !NoCallFromDefiningFile(filtered) then Failure(InvocationFileMatchesDefinition)
    else Success(filtered)
  }

  // ------------------------------------------------------------- stage A

  /** Helper: a successful stage A returns the class filter's result. */
  lemma FilterByDefinitionValue(results: InvocationIndex, className: string, suffix: string, out: InvocationIndex)
    requires FilterByDefinition(results, className, suffix) == Success(out)
    ensures out == FilterEachList(results, ByClass(className))
  {
  }

  /** Helper: a successful stage B returns the filter's result. */
  lemma FilterOutInvocationsValue(results: InvocationIndex, className: string, suffix: string, out: InvocationIndex)
    requires FilterOutInvocationsInDefinition(results, className, suffix) == Success(out)
    ensures out == FilterEachList(results, NotFromClient(className, suffix))
  {
  }

  lemma PairKeyPresent(s: seq<InvocationDefinitionPair>, p: InvocationDefinitionPair)
    requires p in s
    ensures PairKey(p) in multiset(PairKeys(s))
  {
    var i :| 0 <= i < |s| && s[i] == p;
    assert PairKeys(s)[i] == PairKey(p);
  }

  lemma PairKeyWitness(s: seq<InvocationDefinitionPair>, p: InvocationDefinitionPair) returns (q: InvocationDefinitionPair)
    requires PairKey(p) in multiset(PairKeys(s))
    ensures q in s && PairEquivalent(p, q)
  {
    assert PairKey(p) in PairKeys(s);
    var i :| 0 <= i < |s| && PairKeys(s)[i] == PairKey(p);
    q := s[i];
    PairKeyIffEquivalent(p, q);
  }

  /** Stage A keeps every key, even one whose list becomes empty; each list
      is the input list restricted, in order, to pairs defined in className,
      each kept as often as the input holds it. */
  lemma FilterByDefinitionKeepsKeys(results: InvocationIndex, className: string, suffix: string)
    requires FilterByDefinition(results, className, suffix).Success?
    ensures var r := FilterByDefinition(results, className, suffix).value;
      && r.Keys == results.Keys
      && forall k :: k in r ==>
        && IsSubsequence(r[k], results[k])
        && forall p :: multiset(r[k])[p] == if DefinedInClass(p, className) then multiset(results[k])[p] else 0
  {
    var r := FilterByDefinition(results, className, suffix).value;
    forall k | k in r
      ensures IsSubsequence(r[k], results[k])
      ensures forall p :: multiset(r[k])[p] == if DefinedInClass(p, className) then multiset(results[k])[p] else 0
    {
      FilterIsSubsequence(results[k], ByClass(className));
      forall p ensures multiset(r[k])[p] == if DefinedInClass(p, className) then multiset(results[k])[p] else 0 {
        FilterMultiset(results[k], ByClass(className), p);
      }
    }
  }

  /** When stage A succeeds the two filters keep exactly the same pairs:
      an input pair is defined in className exactly when it is defined in
      the client file, so the result is also the file filter's result. */
  lemma FilterByDefinitionAgreement(results: InvocationIndex, className: string, suffix: string)
    requires FilterByDefinition(results, className, suffix).Success?
    ensures forall k, p :: k in results && p in results[k] ==> (DefinedInClass(p, className) <==> DefinedInFile(p, suffix))
    ensures FilterByDefinition(results, className, suffix).value == FilterEachList(results, ByFile(suffix))
  {
    var byClass := FilterEachList(results, ByClass(className));
    var byPath := FilterEachList(results, ByFile(suffix));
    assert Equivalent(byClass, byPath);
    forall k, p | k in byClass && p in byClass[k]
      ensures DefinedInFile(p, suffix)
    {
      PairKeyPresent(byClass[k], p);
      var q := PairKeyWitness(byPath[k], p);
      EndsWithIgnoreCaseRespectsFolding(p.definition.filePath, q.definition.filePath, suffix);
    }
    forall k | k in results
      ensures forall p :: p in results[k] ==> (DefinedInClass(p, className) <==> DefinedInFile(p, suffix))
      ensures byClass[k] == byPath[k]
    {
      assert |byClass[k]| == |byPath[k]| by {
        assert |multiset(PairKeys(byClass[k]))| == |multiset(PairKeys(byPath[k]))|;
      }
      forall p | p in results[k] && DefinedInFile(p, suffix)
        ensures DefinedInClass(p, className)
      {
        if !DefinedInClass(p, className) {
          FilterStrictlyMonotone(results[k], ByClass(className), ByFile(suffix), p);
          assert false;
        }
      }
      FilterSameTest(results[k], ByClass(className), ByFile(suffix));
    }
  }

  /** A pair of className declared outside the client file makes stage A
      fail. */
  lemma FilterByDefinitionFails(results: InvocationIndex, className: string, suffix: string, k: string, p: InvocationDefinitionPair)
    requires k in results && p in results[k]
    requires DefinedInClass(p, className) && !DefinedInFile(p, suffix)
    ensures FilterByDefinition(results, className, suffix) == Failure(InconsistentDefinitions)
  {
    var byClass := FilterEachList(results, ByClass(className));
    assert p in byClass[k];
    if FilterByDefinition(results, className, suffix).Success? {
      FilterByDefinitionAgreement(results, className, suffix);
      assert false;
    }
  }

  // ------------------------------------------------------------- stage B

  /** Stage B keeps every key and drops exactly the calls made from inside
      the client, keeping everything else with its multiplicity and order. */
  lemma FilterOutInvocationsKeepsRest(results: InvocationIndex, className: string, suffix: string)
    requires FilterOutInvocationsInDefinition(results, className, suffix).Success?
    ensures var r := FilterOutInvocationsInDefinition(results, className, suffix).value;
      && r.Keys == results.Keys
      && forall k :: k in r ==>
        && IsSubsequence(r[k], results[k])
        && forall p :: multiset(r[k])[p] == if CalledFromClient(p, className, suffix) then 0 else multiset(results[k])[p]
  {
    var keep := NotFromClient(className, suffix);
    var r := FilterOutInvocationsInDefinition(results, className, suffix).value;
    forall k | k in r
      ensures IsSubsequence(r[k], results[k])
      ensures forall p :: multiset(r[k])[p] == if CalledFromClient(p, className, suffix) then 0 else multiset(results[k])[p]
    {
      FilterIsSubsequence(results[k], keep);
      forall p ensures multiset(r[k])[p] == if CalledFromClient(p, className, suffix) then 0 else multiset(results[k])[p] {
        FilterMultiset(results[k], keep, p);
      }
    }
  }

  /** Stage B succeeds exactly when, after dropping the client's own calls,
      no call comes from its target's class (ordinal) or file (ignoring
      case); it checks the class first. */
  lemma FilterOutInvocationsOutcome(results: InvocationIndex, className: string, suffix: string)
    ensures var filtered := FilterEachList(results, NotFromClient(className, suffix));
      var r := FilterOutInvocationsInDefinition(results, className, suffix);
      && (r.Success? <==> NoCallFromDefiningClass(filtered) && NoCallFromDefiningFile(filtered))
      && (r.Success? ==>
            forall k, p :: k in r.value && p in r.value[k] ==>
              && !CalledFromClient(p, className, suffix)
              && p.invocation.containingClass != p.definition.containingClass
              && !EqualsIgnoreCase(p.invocation.filePath, p.definition.filePath))
      && (!NoCallFromDefiningClass(filtered) ==> r == Failure(InvocationClassMatchesDefinition))
  {
  }

  /** Filtering every list twice with the same test is filtering once. */
  lemma FilterEachListIdempotent(results: InvocationIndex, keep: InvocationDefinitionPair -> bool)
    ensures FilterEachList(FilterEachList(results, keep), keep) == FilterEachList(results, keep)
  {
    var once := FilterEachList(results, keep);
    var twice := FilterEachList(once, keep);
    forall k | k in once ensures twice[k] == once[k] {
      FilterIdempotent(results[k], keep);
    }
  }

  /** Stage B applied to its own result changes nothing. */
  lemma FilterOutInvocationsIdempotent(results: InvocationIndex, className: string, suffix: string)
    requires FilterOutInvocationsInDefinition(results, className, suffix).Success?
    ensures var once := FilterOutInvocationsInDefinition(results, className, suffix).value;
      FilterOutInvocationsInDefinition(once, className, suffix) == Success(once)
  {
    var keep := NotFromClient(className, suffix);
    var once := FilterOutInvocationsInDefinition(results, className, suffix).value;
    assert once == FilterEachList(results, keep);
    FilterEachListIdempotent(results, keep);
    assert FilterEachList(once, keep) == once;
    assert NoCallFromDefiningClass(once) && NoCallFromDefiningFile(once);
  }
}
