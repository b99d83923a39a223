/** The records passed between the stages (the models folder), with the
    case-insensitive equality and hash inputs they define. */
module Models {
  import opened Outcomes
  import opened Text

  /** An endpoint of the API contract: HTTP method and path. */
  datatype Request = Request(httpMethod: string, path: string)

  /** Where a method is declared. */
  datatype MethodInfo = MethodInfo(filePath: string, containingClass: string)

  /** Where a call is made; line and column are 1-based. */
  datatype InvocationLocation = InvocationLocation(
    filePath: string,
    containingClass: string,
    lineNumber: int,
    columnNumber: int)

  /** A call site together with the declaration the call resolves to. Both
      members are required, so both are always present. The type defines no
      equality of its own: lists of pairs keep every entry. */
  datatype InvocationDefinitionPair = InvocationDefinitionPair(
    invocation: InvocationLocation,
    definition: MethodInfo)

  /** Dictionary<string, List<InvocationDefinitionPair>>: method name to the
      pairs found for it, each list in discovery order. */
  type InvocationIndex = map<string, seq<InvocationDefinitionPair>>

  /** The argument of an Equals(object?) override: null, an instance of one
      of the model types, or an object of some other type. */
  datatype Object =
    | Null
    | RequestObject(request: Request)
    | MethodInfoObject(info: MethodInfo)
    | LocationObject(location: InvocationLocation)
    | OtherObject

  // ---------------------------------------------------------------- Request

  /** Request.Equals on two requests: both fields equal ignoring case. */
  predicate RequestEquals(a: Request, b: Request) {
    EqualsIgnoreCase(a.httpMethod, b.httpMethod) && EqualsIgnoreCase(a.path, b.path)
  }

  /** Request.Equals(object?): false for null and for any other type. */
  predicate RequestEqualsObject(r: Request, obj: Object) {
    obj.RequestObject? && RequestEquals(r, obj.request)
  }

  lemma RequestEqualsObjectCases(r: Request, obj: Object)
    ensures obj.Null? ==> !RequestEqualsObject(r, obj)
    ensures !obj.RequestObject? ==> !RequestEqualsObject(r, obj)
    ensures obj.RequestObject? ==>
      (RequestEqualsObject(r, obj) <==>
        Lower(r.httpMethod) == Lower(obj.request.httpMethod) && Lower(r.path) == Lower(obj.request.path))
  {
    if obj.RequestObject? {
      EqualsIgnoreCaseIffLowerEqual(r.httpMethod, obj.request.httpMethod);
      EqualsIgnoreCaseIffLowerEqual(r.path, obj.request.path);
    }
  }

  lemma RequestEqualsIsEquivalence(a: Request, b: Request, c: Request)
    ensures RequestEquals(a, a)
    ensures RequestEquals(a, b) ==> RequestEquals(b, a)
    ensures RequestEquals(a, b) && RequestEquals(b, c) ==> RequestEquals(a, c)
  {
    EqualsIgnoreCaseIsEquivalence(a.httpMethod, b.httpMethod, c.httpMethod);
    EqualsIgnoreCaseIsEquivalence(a.path, b.path, c.path);
  }

  /** What Request.GetHashCode feeds to HashCode.Combine. */
  function RequestHashInputs(r: Request): (string, string) {
    (Upper(r.httpMethod), Lower(r.path))
  }

  /** Equal requests hash alike, and equal hash inputs mean equal requests. */
  lemma RequestHashConsistent(a: Request, b: Request)
    ensures RequestEquals(a, b) <==> RequestHashInputs(a) == RequestHashInputs(b)
  {
    EqualsIgnoreCaseIffUpperEqual(a.httpMethod, b.httpMethod);
    EqualsIgnoreCaseIffLowerEqual(a.path, b.path);
  }

  /** Request.ToString: the method, one space, the path. */
  function RequestToString(r: Request): string {
    r.httpMethod + " " + r.path
  }

  /** Reading a rendered request back: the text before the first space and
      the text after it. */
  function SplitAtFirstSpace(s: string): (string, string) {
    if ' ' in s then
      var i := IndexOf(s, ' ');
      (s[..i], s[i + 1..])
    else
      (s, "")
  }

  /** The rendering is reversible whenever the method has no space in it
      (true of every HTTP method name). */
  lemma RequestToStringRoundTrip(r: Request)
    requires ' ' !in r.httpMethod
    ensures SplitAtFirstSpace(RequestToString(r)) == (r.httpMethod, r.path)
  {
    var s := RequestToString(r);
    assert s[|r.httpMethod|] == ' ';
    var i := IndexOf(s, ' ');
    assert s[..|r.httpMethod|] == r.httpMethod;
    assert i == |r.httpMethod|;
    assert s[i + 1..] == r.path;
  }

  /** Hence distinct requests whose methods have no space render differently. */
  lemma RequestToStringInjective(a: Request, b: Request)
    requires ' ' !in a.httpMethod && ' ' !in b.httpMethod
    requires RequestToString(a) == RequestToString(b)
    ensures a == b
  {
    RequestToStringRoundTrip(a);
    RequestToStringRoundTrip(b);
  }

  // ------------------------------------------------------ HashSet<Request>

  /** A HashSet<Request> never holds two requests that are Equals. */
  predicate NoDuplicateRequests(s: seq<Request>) {
    forall i, j :: 0 <= i < j < |s| ==> !RequestEquals(s[i], s[j])
  }

  predicate ContainsRequest(s: seq<Request>, r: Request) {
    exists i :: 0 <= i < |s| && RequestEquals(s[i], r)
  }

  /** HashSet<Request>.Add: the request goes in unless an equal one is
      already there (the hash inputs agree with Equals, so the hash never
      separates two equal requests). */
  function HashSetAdd(s: seq<Request>, r: Request): (t: seq<Request>)
    requires NoDuplicateRequests(s)
    ensures NoDuplicateRequests(t)
    ensures ContainsRequest(t, r)
    ensures forall x :: x in s ==> x in t
    ensures forall x :: x in t ==> x in s || x == r
    ensures forall x :: ContainsRequest(s, x) ==> ContainsRequest(t, x)
    ensures |t| == if ContainsRequest(s, r) then |s| else |s| + 1
  {
    RequestEqualsIsEquivalence(r, r, r);
    if ContainsRequest(s, r) then s
    else
      assert RequestEquals((s + [r])[|s|], r);
      ContainsRequestAppend(s, r);
      s + [r]
  }

  lemma ContainsRequestAppend(s: seq<Request>, r: Request)
    ensures forall x :: ContainsRequest(s, x) ==> ContainsRequest(s + [r], x)
  {
    forall x | ContainsRequest(s, x) ensures ContainsRequest(s + [r], x) {
      var i :| 0 <= i < |s| && RequestEquals(s[i], x);
      assert (s + [r])[i] == s[i];
    }
  }

  /** Requests that differ only in letter case collapse to one member. */
  lemma CaseVariantsCollapse(r: Request, variant: Request)
    requires Lower(r.httpMethod) == Lower(variant.httpMethod) && Lower(r.path) == Lower(variant.path)
    ensures HashSetAdd(HashSetAdd([], r), variant) == [r]
  {
    EqualsIgnoreCaseIffLowerEqual(r.httpMethod, variant.httpMethod);
    EqualsIgnoreCaseIffLowerEqual(r.path, variant.path);
    assert RequestEquals([r][0], variant);
  }

  // ------------------------------------------------------------- MethodInfo

  /** `obj as MethodInfo`. */
  function AsMethodInfo(obj: Object): Option<MethodInfo> {
    if obj.MethodInfoObject? then Some(obj.info) else None
  }

  /** MethodInfo.Equals(MethodInfo? other): false for null, otherwise both
      fields equal ignoring case. */
  predicate MethodInfoEquals(m: MethodInfo, other: Option<MethodInfo>) {
    && other.Some?
    && EqualsIgnoreCase(m.filePath, other.value.filePath)
    && EqualsIgnoreCase(m.containingClass, other.value.containingClass)
  }

  /** MethodInfo.Equals(object?) delegates to the typed Equals. */
  predicate MethodInfoEqualsObject(m: MethodInfo, obj: Object) {
    MethodInfoEquals(m, AsMethodInfo(obj))
  }

  lemma MethodInfoEqualsCases(m: MethodInfo, obj: Object)
    ensures !MethodInfoEquals(m, None)
    ensures !obj.MethodInfoObject? ==> !MethodInfoEqualsObject(m, obj)
    ensures obj.MethodInfoObject? ==>
      (MethodInfoEqualsObject(m, obj) <==>
        Lower(m.filePath) == Lower(obj.info.filePath) &&
        Lower(m.containingClass) == Lower(obj.info.containingClass))
  {
    if obj.MethodInfoObject? {
      EqualsIgnoreCaseIffLowerEqual(m.filePath, obj.info.filePath);
      EqualsIgnoreCaseIffLowerEqual(m.containingClass, obj.info.containingClass);
    }
  }

  lemma MethodInfoEqualsIsEquivalence(a: MethodInfo, b: MethodInfo, c: MethodInfo)
    ensures MethodInfoEquals(a, Some(a))
    ensures MethodInfoEquals(a, Some(b)) ==> MethodInfoEquals(b, Some(a))
    ensures MethodInfoEquals(a, Some(b)) && MethodInfoEquals(b, Some(c)) ==> MethodInfoEquals(a, Some(c))
  {
    EqualsIgnoreCaseIsEquivalence(a.filePath, b.filePath, c.filePath);
    EqualsIgnoreCaseIsEquivalence(a.containingClass, b.containingClass, c.containingClass);
  }

  /** What MethodInfo.GetHashCode feeds to HashCode.Combine. */
  function MethodInfoHashInputs(m: MethodInfo): (string, string) {
    (Lower(m.filePath), Lower(m.containingClass))
  }

  lemma MethodInfoHashConsistent(a: MethodInfo, b: MethodInfo)
    ensures MethodInfoEquals(a, Some(b)) <==> MethodInfoHashInputs(a) == MethodInfoHashInputs(b)
  {
    EqualsIgnoreCaseIffLowerEqual(a.filePath, b.filePath);
    EqualsIgnoreCaseIffLowerEqual(a.containingClass, b.containingClass);
  }

  // ----------------------------------------------------- InvocationLocation

  /** `obj as InvocationLocation`. */
  function AsLocation(obj: Object): Option<InvocationLocation> {
    if obj.LocationObject? then Some(obj.location) else None
  }

  /** InvocationLocation.Equals(InvocationLocation? other): false for null,
      otherwise strings equal ignoring case and line and column equal. */
  predicate LocationEquals(l: InvocationLocation, other: Option<InvocationLocation>) {
    && other.Some?
    && EqualsIgnoreCase(l.filePath, other.value.filePath)
    && EqualsIgnoreCase(l.containingClass, other.value.containingClass)
    && l.lineNumber == other.value.lineNumber
    && l.columnNumber == other.value.columnNumber
  }

  /** InvocationLocation.Equals(object?) delegates to the typed Equals. */
  predicate LocationEqualsObject(l: InvocationLocation, obj: Object) {
    LocationEquals(l, AsLocation(obj))
  }

  lemma LocationEqualsCases(l: InvocationLocation, obj: Object)
    ensures !LocationEquals(l, None)
    ensures !obj.LocationObject? ==> !LocationEqualsObject(l, obj)
    ensures obj.LocationObject? ==>
      (LocationEqualsObject(l, obj) <==>
        && Lower(l.filePath) == Lower(obj.location.filePath)
        && Lower(l.containingClass) == Lower(obj.location.containingClass)
        && l.lineNumber == obj.location.lineNumber
        && l.columnNumber == obj.location.columnNumber)
  {
    if obj.LocationObject? {
      EqualsIgnoreCaseIffLowerEqual(l.filePath, obj.location.filePath);
      EqualsIgnoreCaseIffLowerEqual(l.containingClass, obj.location.containingClass);
    }
  }

  /** Helper: two calls on different lines, or in different columns, are
      different locations whatever their strings. */
  lemma LocationsApartDiffer(l: InvocationLocation, other: InvocationLocation)
    requires l.lineNumber != other.lineNumber || l.columnNumber != other.columnNumber
    ensures !LocationEquals(l, Some(other))
  {
  }

  lemma LocationEqualsIsEquivalence(a: InvocationLocation, b: InvocationLocation, c: InvocationLocation)
    ensures LocationEquals(a, Some(a))
    ensures LocationEquals(a, Some(b)) ==> LocationEquals(b, Some(a))
    ensures LocationEquals(a, Some(b)) && LocationEquals(b, Some(c)) ==> LocationEquals(a, Some(c))
  {
    EqualsIgnoreCaseIsEquivalence(a.filePath, b.filePath, c.filePath);
    EqualsIgnoreCaseIsEquivalence(a.containingClass, b.containingClass, c.containingClass);
  }

  /** What InvocationLocation.GetHashCode feeds to HashCode.Combine. */
  function LocationHashInputs(l: InvocationLocation): (string, string, int, int) {
    (Lower(l.filePath), Lower(l.containingClass), l.lineNumber, l.columnNumber)
  }

  lemma LocationHashConsistent(a: InvocationLocation, b: InvocationLocation)
    ensures LocationEquals(a, Some(b)) <==> LocationHashInputs(a) == LocationHashInputs(b)
  {
    EqualsIgnoreCaseIffLowerEqual(a.filePath, b.filePath);
    EqualsIgnoreCaseIffLowerEqual(a.containingClass, b.containingClass);
  }

  // ------------------------------------------------- InvocationDefinitionPair

  /** Member-by-member equivalence of two pairs, each member compared with
      its own Equals (how an assertion library compares objects of a type
      without an Equals of its own). */
  predicate PairEquivalent(p: InvocationDefinitionPair, q: InvocationDefinitionPair) {
    LocationEquals(p.invocation, Some(q.invocation)) && MethodInfoEquals(p.definition, Some(q.definition))
  }

  /** The case-folded contents of a pair: a canonical representative of its
      equivalence class. */
  function PairKey(p: InvocationDefinitionPair): ((string, string, int, int), (string, string)) {
    (LocationHashInputs(p.invocation), MethodInfoHashInputs(p.definition))
  }

  lemma PairKeyIffEquivalent(p: InvocationDefinitionPair, q: InvocationDefinitionPair)
    ensures PairEquivalent(p, q) <==> PairKey(p) == PairKey(q)
  {
    LocationHashConsistent(p.invocation, q.invocation);
    MethodInfoHashConsistent(p.definition, q.definition);
  }
}
