/** SwaggerRequestExtractor over already-parsed JSON: the walk down a
    dot-separated section path of the nswag configuration, and the set of
    endpoints read from the `paths` table of an OpenAPI document (the Paths
    and Path Item Objects of the OpenAPI Specification 3.0.3, sections 4.7.8
    and 4.7.9). */
module SwaggerRequestExtractor {
  import opened Outcomes
  import opened Text
  import opened Models

  /** A parsed JSON value. Object members keep their order and may repeat. */
  datatype Json =
    | JNull
    | JBool(b: bool)
    | JNumber(literal: string)
    | JString(s: string)
    | JArray(items: seq<Json>)
    | JObject(properties: seq<Property>)

  datatype Property = Property(name: string, value: Json)

  /** The value of the last member called name (ordinal comparison). */
  function LastMember(properties: seq<Property>, name: string): (r: Option<Json>)
    ensures r.None? <==> forall i :: 0 <= i < |properties| ==> properties[i].name != name
    ensures r.Some? ==> exists i ::
      && 0 <= i < |properties| && properties[i].name == name && properties[i].value == r.value
      && forall j :: i < j < |properties| ==> properties[j].name != name
  {
    if properties == [] then None
    else if properties[|properties| - 1].name == name then Some(properties[|properties| - 1].value)
    else LastMember(properties[..|properties| - 1], name)
  }

  /** JsonElement.TryGetProperty: None when there is no such member; only an
      object can be asked. */
  function TryGetProperty(element: Json, name: string): (r: Result<Option<Json>>)
    ensures r.Failure? <==> !element.JObject?
    ensures r.Failure? ==> r.error == NotAnObject
    ensures r.Success? && r.value.Some? ==> Property(name, r.value.value) in element.properties
  {
    if element.JObject? then Success(LastMember(element.properties, name)) else Failure(NotAnObject)
  }

  /** JsonElement.GetString: the text of a string, None for null; any other
      kind of value cannot be read as a string. */
  function GetString(element: Json): (r: Result<Option<string>>)
    ensures r.Success? <==> element.JString? || element.JNull?
    ensures r.Success? ==> (r.value.None? <==> element == JNull)
    ensures r.Success? && r.value.Some? ==> element == JString(r.value.value)
  {
    match element
    case JString(s) => Success(Some(s))
    case JNull => Success(None)
    case _ => Failure(NotAString)
  }

  // ------------------------------------------------------ ExtractProperty

  /** Descends member by member through sections, failing at the first
      missing one. */
  function Descend(element: Json, sections: seq<string>): (r: Result<Json>)
    ensures r.Failure? ==> r.error == NotAnObject || (r.error.MissingSection? && r.error.name in sections)
  {
    if sections == [] then Success(element)
    else
      var next :- TryGetProperty(element, sections[0]);
      if next.None? then Failure(MissingSection(sections[0]))
      else Descend(next.value, sections[1..])
  }

  /** The walk through sections stops at position i with error e: the
      sections before i were all found, and the value reached is not an
      object (NotAnObject) or has no member sections[i] (MissingSection). */
  predicate StopsAt(element: Json, sections: seq<string>, i: int, e: Error) {
    && 0 <= i < |sections|
    && Descend(element, sections[..i]).Success?
    && var at := Descend(element, sections[..i]).value;
      || (e == NotAnObject && !at.JObject?)
      || (e == MissingSection(sections[i]) && TryGetProperty(at, sections[i]) == Success(None))
  }

  /** A failed walk fails at the first section it cannot enter, and reports
      that one. */
  lemma {:induction false} DescendStopsAtFirstGap(element: Json, sections: seq<string>)
    requires Descend(element, sections).Failure?
    ensures exists i :: StopsAt(element, sections, i, Descend(element, sections).error)
  {
    var e := Descend(element, sections).error;
    assert sections[..0] == [];
    if !element.JObject? || LastMember(element.properties, sections[0]).None? {
      assert StopsAt(element, sections, 0, e);
    } else {
      var next := LastMember(element.properties, sections[0]).value;
      DescendStopsAtFirstGap(next, sections[1..]);
      var j :| StopsAt(next, sections[1..], j, e);
      assert sections[..j + 1][1..] == sections[1..][..j];
      assert Descend(element, sections[..j + 1]) == Descend(next, sections[1..][..j]);
      assert StopsAt(element, sections, j + 1, e);
    }
  }

  /** What ExtractProperty returns for an already-parsed configuration. */
  function PropertyAt(root: Json, sectionPath: string, propertyName: string): (r: Result<string>)
    ensures r.Success? ==> !IsWhiteSpaceOnly(r.value)
    ensures r.Failure? ==>
      || r.error in {NotAnObject, NotAString, MissingProperty(propertyName), EmptyProperty(propertyName), BlankProperty(propertyName)}
      || (r.error.MissingSection? && r.error.name in Split(sectionPath, '.'))
  {
    var section :- Descend(root, Split(sectionPath, '.'));
    var property :- TryGetProperty(section, propertyName);
    if property.None? then Failure(MissingProperty(propertyName))
    else
      var text :- GetString(property.value);
      if text.None? then Failure(EmptyProperty(propertyName))
      else if IsWhiteSpaceOnly(text.value) then Failure(BlankProperty(propertyName))
      else Success(text.value)
  }

  /** Which outcome each shape of configuration gives: the walk's own
      failure, a section that is not an object, or else what the last member
      called propertyName holds. */
  lemma PropertyAtCases(root: Json, sectionPath: string, propertyName: string)
    ensures var walk := Descend(root, Split(sectionPath, '.'));
      && (walk.Failure? ==> PropertyAt(root, sectionPath, propertyName) == Failure(walk.error))
      && (walk.Success? && !walk.value.JObject? ==> PropertyAt(root, sectionPath, propertyName) == Failure(NotAnObject))
      && (walk.Success? && walk.value.JObject? ==>
            PropertyAt(root, sectionPath, propertyName) ==
              match LastMember(walk.value.properties, propertyName)
              case None => Failure(MissingProperty(propertyName))
              case Some(JNull) => Failure(EmptyProperty(propertyName))
              case Some(JString(text)) =>
                if IsWhiteSpaceOnly(text) then Failure(BlankProperty(propertyName)) else Success(text)
              case Some(_) => Failure(NotAString))
  {
  }

  /** ExtractProperty: split the section path on '.', walk down it, then read
      the property as a non-blank string. */
  method ExtractProperty(root: Json, sectionPath: string, propertyName: string) returns (r: Result<string>)
    ensures r == PropertyAt(root, sectionPath, propertyName)
  {
    var sections := Split(sectionPath, '.');
    var current := root;
    var i := 0;
    while i < |sections|
      invariant 0 <= i <= |sections|
      invariant Descend(root, sections) == Descend(current, sections[i..])
    {
      var next := TryGetProperty(current, sections[i]);
      if next.Failure? {
        return Failure(next.error);
      }
      if next.value.None? {
        return Failure(MissingSection(sections[i]));
      }
      assert sections[i..][1..] == sections[i + 1..];
      current := next.value.value;
      i := i + 1;
    }
    var property := TryGetProperty(current, propertyName);
    if property.Failure? {
      return Failure(property.error);
    }
    if property.value.None? {
      return Failure(MissingProperty(propertyName));
    }
    var text := GetString(property.value.value);
    if text.Failure? {
      return Failure(text.error);
    }
    if text.value.None? {
      return Failure(EmptyProperty(propertyName));
    }
    if IsWhiteSpaceOnly(text.value.value) {
      return Failure(BlankProperty(propertyName));
    }
    return Success(text.value.value);
  }

  /** A configuration holding exactly the given section path around leaf. */
  function Nest(sections: seq<string>, leaf: Json): Json {
    if sections == [] then leaf else JObject([Property(sections[0], Nest(sections[1..], leaf))])
  }

  lemma {:induction false} DescendNest(sections: seq<string>, leaf: Json)
    ensures Descend(Nest(sections, leaf), sections) == Success(leaf)
  {
    if sections != [] {
      DescendNest(sections[1..], leaf);
    }
  }

  /** A property written under a section path is read back unchanged, as
      long as it is not blank. */
  lemma PropertyAtRoundTrip(sectionPath: string, propertyName: string, value: string)
    requires !IsWhiteSpaceOnly(value)
    ensures PropertyAt(Nest(Split(sectionPath, '.'), JObject([Property(propertyName, JString(value))])), sectionPath, propertyName)
      == Success(value)
  {
    DescendNest(Split(sectionPath, '.'), JObject([Property(propertyName, JString(value))]));
  }

  /** Null and blank values are refused. */
  lemma PropertyAtRefusesEmpty(sectionPath: string, propertyName: string, value: Json)
    requires value == JNull || (value.JString? && IsWhiteSpaceOnly(value.s))
    ensures PropertyAt(Nest(Split(sectionPath, '.'), JObject([Property(propertyName, value)])), sectionPath, propertyName)
      == Failure(if value == JNull then EmptyProperty(propertyName) else BlankProperty(propertyName))
  {
    DescendNest(Split(sectionPath, '.'), JObject([Property(propertyName, value)]));
  }

  const ClientSection: string := "codeGenerators.openApiToCSharpClient"

  /** GetGeneratedClientClassName: the className of the C# client generator. */
  method GetGeneratedClientClassName(root: Json) returns (r: Result<string>)
    ensures r == PropertyAt(root, ClientSection, "className")
    ensures r.Success? ==> !IsWhiteSpaceOnly(r.value)
  {
    r := ExtractProperty(root, ClientSection, "className");
  }

  /** The first step of GetGeneratedClientFilePath: the output path of the C#
      client generator, as written in the configuration. Resolving it against
      the configuration's directory and checking that the file exists are
      file-system work outside this model. */
  method GetGeneratedClientOutput(root: Json) returns (r: Result<string>)
    ensures r == PropertyAt(root, ClientSection, "output")
    ensures r.Success? ==> !IsWhiteSpaceOnly(r.value)
  {
    r := ExtractProperty(root, ClientSection, "output");
  }

  // ---------------------------------------------------- ExtractRequestsAsync

  /** IsValidHttpMethod: the seven operation keys kept, compared ordinally. */
  predicate IsValidHttpMethod(m: string) {
    m == "GET" || m == "POST" || m == "PUT" || m == "DELETE" || m == "PATCH" || m == "OPTIONS" || m == "HEAD"
  }

  /** Upper-casing leaves a word of capitals alone. */
  lemma UpperKeepsCapitals(n: string)
    requires forall i :: 0 <= i < |n| ==> 'A' <= n[i] <= 'Z'
    ensures Upper(n) == n
  {
  }

  /** A key matches a method name, in any letter case, exactly when
      upper-casing it gives that name. */
  lemma MatchesMethodName(key: string, n: string)
    requires forall i :: 0 <= i < |n| ==> 'A' <= n[i] <= 'Z'
    ensures EqualsIgnoreCase(key, n) <==> Upper(key) == n
  {
    UpperKeepsCapitals(n);
    EqualsIgnoreCaseIffUpperEqual(key, n);
  }

  /** Keys are upper-cased before the check, so a key is kept exactly when it
      names one of the seven methods in any letter case. */
  lemma AcceptedKeys(key: string)
    ensures IsValidHttpMethod(Upper(key)) <==>
      || EqualsIgnoreCase(key, "GET") || EqualsIgnoreCase(key, "POST") || EqualsIgnoreCase(key, "PUT")
      || EqualsIgnoreCase(key, "DELETE") || EqualsIgnoreCase(key, "PATCH") || EqualsIgnoreCase(key, "OPTIONS")
      || EqualsIgnoreCase(key, "HEAD")
  {
    MatchesMethodName(key, "GET");
    MatchesMethodName(key, "POST");
    MatchesMethodName(key, "PUT");
    MatchesMethodName(key, "DELETE");
    MatchesMethodName(key, "PATCH");
    MatchesMethodName(key, "OPTIONS");
    MatchesMethodName(key, "HEAD");
  }

  /** `trace` and the non-operation key `parameters` of a Path Item are
      dropped. */
  lemma RejectedKeys()
    ensures !IsValidHttpMethod(Upper("trace")) && !IsValidHttpMethod(Upper("parameters"))
  {
    assert Upper("trace") == "TRACE";
    assert Upper("parameters") == "PARAMETERS";
  }

  /** The operation keys of a path value (nothing for a value that is not an
      object, which the loop refuses anyway). */
  function MembersOf(value: Json): seq<Property> {
    if value.JObject? then value.properties else []
  }

  /** The inner loop: the operations of one path added to the set. */
  function AddOperations(requests: seq<Request>, path: string, operations: seq<Property>): (r: seq<Request>)
    requires NoDuplicateRequests(requests)
    ensures NoDuplicateRequests(r)
    ensures forall x :: ContainsRequest(requests, x) ==> ContainsRequest(r, x)
  {
    if operations == [] then requests
    else
      var before := AddOperations(requests, path, operations[..|operations| - 1]);
      var m := Upper(operations[|operations| - 1].name);
      if IsValidHttpMethod(m) then HashSetAdd(before, Request(m, path)) else before
  }

  /** The outer loop: every path of the table, in order. */
  function AddPaths(paths: seq<Property>): (r: Result<seq<Request>>)
    ensures r.Success? ==> NoDuplicateRequests(r.value)
  {
    if paths == [] then Success([])
    else
      var before :- AddPaths(paths[..|paths| - 1]);
      var last := paths[|paths| - 1];
      if !last.value.JObject? then Failure(NotAnObject)
      else Success(AddOperations(before, last.name, last.value.properties))
  }

  /** The url of the API document, checked as ExtractRequestsAsync checks it. */
  function SwaggerUrl(nswag: Json): (r: Result<string>)
    ensures r.Success? ==> !IsWhiteSpaceOnly(r.value)
  {
    var documentGenerator :- TryGetProperty(nswag, "documentGenerator");
    if documentGenerator.None? then Failure(MissingSection("documentGenerator"))
    else
      var fromDocument :- TryGetProperty(documentGenerator.value, "fromDocument");
      if fromDocument.None? then Failure(MissingSection("fromDocument"))
      else
        var url :- TryGetProperty(fromDocument.value, "url");
        if url.None? then Failure(MissingProperty("url"))
        else
          var text :- GetString(url.value);
          if text.None? || IsWhiteSpaceOnly(text.value) then Failure(EmptyProperty("url"))
          else Success(text.value)
  }

  /** What ExtractRequestsAsync returns; download stands for fetching and
      parsing the document the url points to. */
  function ExtractedRequests(nswag: Json, download: string -> Json): (r: Result<seq<Request>>)
    ensures r.Success? ==> SwaggerUrl(nswag).Success? && NoDuplicateRequests(r.value)
  {
    var url :- SwaggerUrl(nswag);
    var paths :- TryGetProperty(download(url), "paths");
    if paths.None? then Failure(MissingSection("paths"))
    else if !paths.value.JObject? then Failure(NotAnObject)
    else AddPaths(paths.value.properties)
  }

  /** ExtractRequestsAsync after the configuration has been parsed. */
  method ExtractRequests(nswag: Json, download: string -> Json) returns (r: Result<seq<Request>>)
    ensures r == ExtractedRequests(nswag, download)
    ensures r.Success? ==> NoDuplicateRequests(r.value)
  {
    var url := SwaggerUrl(nswag);
    if url.Failure? {
      return Failure(url.error);
    }
    var swagger := download(url.value);
    var pathsElement := TryGetProperty(swagger, "paths");
    if pathsElement.Failure? {
      return Failure(pathsElement.error);
    }
    if pathsElement.value.None? {
      return Failure(MissingSection("paths"));
    }
    var table := pathsElement.value.value;
    if !table.JObject? {
      return Failure(NotAnObject);
    }
    r := CollectPaths(table.properties);
  }

  /** The outer loop of ExtractRequestsAsync, over the entries of `paths`. */
  method CollectPaths(paths: seq<Property>) returns (r: Result<seq<Request>>)
    ensures r == AddPaths(paths)
  {
    var requests: seq<Request> := [];
    var i := 0;
    while i < |paths|
      invariant 0 <= i <= |paths|
      invariant AddPaths(paths[..i]) == Success(requests)
    {
      var pathProperty := paths[i];
      assert paths[..i + 1][..i] == paths[..i] && paths[..i + 1][i] == pathProperty;
      if !pathProperty.value.JObject? {
        AddPathsFailurePersists(paths, i + 1);
        return Failure(NotAnObject);
      }
      requests := CollectOperations(requests, pathProperty.name, pathProperty.value.properties);
      i := i + 1;
    }
    assert paths[..i] == paths;
    return Success(requests);
  }

  /** The inner loop: the operation keys of one path, upper-cased, the seven
      methods added to the set. */
  method CollectOperations(requests: seq<Request>, path: string, operations: seq<Property>) returns (r: seq<Request>)
    requires NoDuplicateRequests(requests)
    ensures r == AddOperations(requests, path, operations)
  {
    r := requests;
    var j := 0;
    while j < |operations|
      invariant 0 <= j <= |operations|
      invariant r == AddOperations(requests, path, operations[..j])
    {
      assert operations[..j + 1][..j] == operations[..j];
      var httpMethod := Upper(operations[j].name);
      if IsValidHttpMethod(httpMethod) {
        r := HashSetAdd(r, Request(httpMethod, path));
      }
      j := j + 1;
    }
    assert operations[..j] == operations;
  }

  lemma {:induction false} AddPathsFailurePersists(paths: seq<Property>, n: nat)
    requires n <= |paths| && AddPaths(paths[..n]).Failure?
    ensures AddPaths(paths) == AddPaths(paths[..n])
    decreases |paths|
  {
    if n < |paths| {
      var prefix := paths[..|paths| - 1];
      assert prefix[..n] == paths[..n];
      AddPathsFailurePersists(prefix, n);
    } else {
      assert paths[..n] == paths;
    }
  }

  // ------------------------------------------------ what the set holds

  /** The request an operation key of a path stands for, when it is kept. */
  predicate Offers(paths: seq<Property>, x: Request) {
    exists i, j :: 0 <= i < |paths| && 0 <= j < |MembersOf(paths[i].value)| &&
      Upper(MembersOf(paths[i].value)[j].name) == x.httpMethod && paths[i].name == x.path
  }

  /** Every request added by the inner loop comes from one of its operations. */
  lemma {:induction false} AddOperationsSound(requests: seq<Request>, path: string, operations: seq<Property>)
    requires NoDuplicateRequests(requests)
    ensures forall x :: x in AddOperations(requests, path, operations) ==>
      x in requests || (IsValidHttpMethod(x.httpMethod) && x.path == path &&
        exists j :: 0 <= j < |operations| && Upper(operations[j].name) == x.httpMethod)
  {
    if operations != [] {
      var prefix := operations[..|operations| - 1];
      AddOperationsSound(requests, path, prefix);
      forall x | x in AddOperations(requests, path, operations) && x !in requests
        ensures IsValidHttpMethod(x.httpMethod) && x.path == path &&
          exists j :: 0 <= j < |operations| && Upper(operations[j].name) == x.httpMethod
      {
        if x in AddOperations(requests, path, prefix) {
          var j :| 0 <= j < |prefix| && Upper(prefix[j].name) == x.httpMethod;
          assert operations[j] == prefix[j];
        } else {
          assert Upper(operations[|operations| - 1].name) == x.httpMethod;
        }
      }
    }
  }

  /** Every kept operation of the inner loop is in the set, up to case. */
  lemma {:induction false} AddOperationsComplete(requests: seq<Request>, path: string, operations: seq<Property>)
    requires NoDuplicateRequests(requests)
    ensures forall j :: 0 <= j < |operations| && IsValidHttpMethod(Upper(operations[j].name)) ==>
      ContainsRequest(AddOperations(requests, path, operations), Request(Upper(operations[j].name), path))
  {
    if operations != [] {
      var prefix := operations[..|operations| - 1];
      AddOperationsComplete(requests, path, prefix);
      forall j | 0 <= j < |operations| - 1 && IsValidHttpMethod(Upper(operations[j].name))
        ensures ContainsRequest(AddOperations(requests, path, operations), Request(Upper(operations[j].name), path))
      {
        assert prefix[j] == operations[j];
      }
    }
  }

  /** The extracted set: it exists exactly when every path value is an
      object; it then holds, for every path and every operation key that
      names one of the seven methods, the request (upper-cased method, path)
      up to case, holds nothing else, and holds no two equal requests. */
  lemma {:induction false} AddPathsCharacterization(paths: seq<Property>)
    ensures AddPaths(paths).Success? <==> forall i :: 0 <= i < |paths| ==> paths[i].value.JObject?
    ensures AddPaths(paths).Success? ==>
      && NoDuplicateRequests(AddPaths(paths).value)
      && (forall x :: x in AddPaths(paths).value ==> IsValidHttpMethod(x.httpMethod) && Offers(paths, x))
      && (forall i, j ::
            (0 <= i < |paths| && 0 <= j < |MembersOf(paths[i].value)|
             && IsValidHttpMethod(Upper(MembersOf(paths[i].value)[j].name))) ==>
            ContainsRequest(AddPaths(paths).value, Request(Upper(MembersOf(paths[i].value)[j].name), paths[i].name)))
  {
    if paths != [] {
      var prefix := paths[..|paths| - 1];
      var last := paths[|paths| - 1];
      AddPathsCharacterization(prefix);
      var before := AddPaths(prefix);
      if before.Success? && last.value.JObject? {
        var operations := last.value.properties;
        var after := AddOperations(before.value, last.name, operations);
        AddOperationsSound(before.value, last.name, operations);
        AddOperationsComplete(before.value, last.name, operations);
        forall x | x in after ensures IsValidHttpMethod(x.httpMethod) && Offers(paths, x) {
          if x in before.value {
            var i, j :| 0 <= i < |prefix| && 0 <= j < |MembersOf(prefix[i].value)| &&
              Upper(MembersOf(prefix[i].value)[j].name) == x.httpMethod && prefix[i].name == x.path;
            assert paths[i] == prefix[i];
          } else {
            var j :| 0 <= j < |operations| && Upper(operations[j].name) == x.httpMethod;
            assert MembersOf(paths[|paths| - 1].value)[j] == operations[j];
          }
        }
        forall i, j | 0 <= i < |paths| && 0 <= j < |MembersOf(paths[i].value)|
            && IsValidHttpMethod(Upper(MembersOf(paths[i].value)[j].name))
          ensures ContainsRequest(after, Request(Upper(MembersOf(paths[i].value)[j].name), paths[i].name))
        {
          if i < |paths| - 1 {
            assert paths[i] == prefix[i];
          }
        }
      }
    }
  }

  /** The url read from any configuration: the walk through
      documentGenerator.fromDocument passes its failure on (the first missing
      section, or a value that is not an object); then the last member called
      url decides: missing, null or blank, a string, or another value. */
  lemma SwaggerUrlCases(nswag: Json)
    ensures var walk := Descend(nswag, ["documentGenerator", "fromDocument"]);
      && (walk.Failure? ==> SwaggerUrl(nswag) == Failure(walk.error))
      && (walk.Success? && !walk.value.JObject? ==> SwaggerUrl(nswag) == Failure(NotAnObject))
      && (walk.Success? && walk.value.JObject? ==>
            SwaggerUrl(nswag) ==
              match LastMember(walk.value.properties, "url")
              case None => Failure(MissingProperty("url"))
              case Some(JNull) => Failure(EmptyProperty("url"))
              case Some(JString(text)) =>
                if IsWhiteSpaceOnly(text) then Failure(EmptyProperty("url")) else Success(text)
              case Some(_) => Failure(NotAString))
  {
    var sections := ["documentGenerator", "fromDocument"];
    assert sections[1..] == ["fromDocument"];
    assert ["fromDocument"][1..] == [];
    if nswag.JObject? && LastMember(nswag.properties, "documentGenerator").Some? {
      var documentGenerator := LastMember(nswag.properties, "documentGenerator").value;
      assert Descend(nswag, sections) == Descend(documentGenerator, ["fromDocument"]);
      if documentGenerator.JObject? && LastMember(documentGenerator.properties, "fromDocument").Some? {
        var fromDocument := LastMember(documentGenerator.properties, "fromDocument").value;
        assert Descend(documentGenerator, ["fromDocument"]) == Descend(fromDocument, []);
      }
    }
  }

  /** The configuration checks of ExtractRequestsAsync, in order: the two
      sections, the url member, then a null or blank url. */
  lemma SwaggerUrlCharacterization(url: Json)
    ensures SwaggerUrl(Nest(["documentGenerator", "fromDocument"], JObject([Property("url", url)]))) ==
      match url
      case JString(s) => if IsWhiteSpaceOnly(s) then Failure(EmptyProperty("url")) else Success(s)
      case JNull => Failure(EmptyProperty("url"))
      case _ => Failure(NotAString)
    ensures SwaggerUrl(JObject([])) == Failure(MissingSection("documentGenerator"))
    ensures SwaggerUrl(Nest(["documentGenerator"], JObject([]))) == Failure(MissingSection("fromDocument"))
    ensures SwaggerUrl(Nest(["documentGenerator", "fromDocument"], JObject([]))) == Failure(MissingProperty("url"))
  {
    var leaf := JObject([Property("url", url)]);
    assert ["documentGenerator", "fromDocument"][1..] == ["fromDocument"];
    assert ["fromDocument"][1..] == [];
    assert Nest(["fromDocument"], leaf) == JObject([Property("fromDocument", leaf)]);
    assert Nest(["fromDocument"], JObject([])) == JObject([Property("fromDocument", JObject([]))]);
    assert Nest(["documentGenerator", "fromDocument"], leaf)
      == JObject([Property("documentGenerator", JObject([Property("fromDocument", leaf)]))]);
    assert Nest(["documentGenerator", "fromDocument"], JObject([]))
      == JObject([Property("documentGenerator", JObject([Property("fromDocument", JObject([]))]))]);
  }

  /** After the url checks, the downloaded document must have a `paths`
      member holding an object; the endpoints are then read from its
      entries. */
  lemma ExtractedRequestsOutcome(nswag: Json, download: string -> Json)
    ensures SwaggerUrl(nswag).Failure? ==> ExtractedRequests(nswag, download) == Failure(SwaggerUrl(nswag).error)
    ensures SwaggerUrl(nswag).Success? ==>
      var document := download(SwaggerUrl(nswag).value);
      && (!document.JObject? ==> ExtractedRequests(nswag, download) == Failure(NotAnObject))
      && (document.JObject? && LastMember(document.properties, "paths").None? ==>
            ExtractedRequests(nswag, download) == Failure(MissingSection("paths")))
      && (document.JObject? && LastMember(document.properties, "paths").Some? ==>
            var table := LastMember(document.properties, "paths").value;
            ExtractedRequests(nswag, download) == if table.JObject? then AddPaths(table.properties) else Failure(NotAnObject))
  {
  }
}
