/** Request routing between the frontend's API client and the backend's
    DocumentController: the client's request for each of its four calls, the handler
    mappings the controller declares, and the way a request is dispatched to them. */
module Routes {
  import opened Text


  datatype Verb = Get | Post | Delete

  /** A path segment of a mapping: a literal, or a path variable such as `{id}`. */
  datatype Segment = Lit(text: string) | Var(name: string)

  datatype Handler = AddDocument | AddDocuments | SearchDocuments | GetDocumentById | DeleteDocument

  datatype Route = Route(verb: Verb, pattern: seq<Segment>, handler: Handler)

  /** A request as the server sees it: the verb and the path split at '/' (the query
      string is not part of it). */
  datatype Request = Request(verb: Verb, path: seq<string>)

  /** What dispatch does with a request: run a handler, answer 405 because the path is
      mapped for other verbs only, or answer 404. */
  datatype Outcome = Handled(handler: Handler) | MethodNotAllowed | NotFound

  /** The handler mappings as declared, each method's mapping appended to the class
      mapping "/api/documents". */
  const AddPattern: seq<Segment> := [Lit("api"), Lit("documents")]
  const AddManyPattern: seq<Segment> := [Lit("api"), Lit("documents"), Lit("many")]
  const SearchPattern: seq<Segment> := [Lit("api"), Lit("documents"), Lit("search")]
  const GetPattern: seq<Segment> := [Lit("api"), Lit("documents"), Var("id")]
  const DeletePattern: seq<Segment> := [Lit("api"), Lit("documents"), Lit("documents"), Var("id")]

  /** The route table, literal patterns before patterns with variables. */
  const ServerRoutes: seq<Route> := [
    Route(Post, AddPattern, AddDocument),
    Route(Post, AddManyPattern, AddDocuments),
    Route(Get, SearchPattern, SearchDocuments),
    Route(Get, GetPattern, GetDocumentById),
    Route(Delete, DeletePattern, DeleteDocument)
  ]

  /** The route table with the delete mapping at "/{id}", where the client sends it. */
  const CorrectedRoutes: seq<Route> := [
    Route(Post, AddPattern, AddDocument),
    Route(Post, AddManyPattern, AddDocuments),
    Route(Get, SearchPattern, SearchDocuments),
    Route(Get, GetPattern, GetDocumentById),
    Route(Delete, GetPattern, DeleteDocument)
  ]

  /** A five-route table whose first four routes are the create and read mappings. */
  predicate ReadRoutesFirst(routes: seq<Route>) {
    && |routes| == 5
    && routes[0] == Route(Post, AddPattern, AddDocument)
    && routes[1] == Route(Post, AddManyPattern, AddDocuments)
    && routes[2] == Route(Get, SearchPattern, SearchDocuments)
    && routes[3] == Route(Get, GetPattern, GetDocumentById)
  }

  predicate SegmentMatches(s: Segment, part: string) {
    match s
    case Lit(text) => part == text
    case Var(_) => part != ""
  }

  predicate PathMatches(pattern: seq<Segment>, path: seq<string>) {
    |pattern| == |path| && forall k :: 0 <= k < |path| ==> SegmentMatches(pattern[k], path[k])
  }

  predicate RouteMatches(route: Route, request: Request) {
    route.verb == request.verb && PathMatches(route.pattern, request.path)
  }

  function Variables(pattern: seq<Segment>): nat {
    if pattern == [] then 0 else (if pattern[0].Var? then 1 else 0) + Variables(pattern[1..])
  }

  /** More specific patterns (fewer variables) come first, so the first match is the
      most specific one, as the server's dispatch prefers. */
  predicate SpecificFirst(routes: seq<Route>) {
    forall i, j :: 0 <= i < j < |routes| ==> Variables(routes[i].pattern) <= Variables(routes[j].pattern)
  }

  lemma PatternVariables()
    ensures Variables(AddPattern) == 0 && Variables(AddManyPattern) == 0 && Variables(SearchPattern) == 0
    ensures Variables(GetPattern) == 1 && Variables(DeletePattern) == 1
  {
    assert Variables(AddPattern) == 0 by {
      assert AddPattern[1..][1..] == [];
    }
    assert Variables(AddManyPattern) == 0 by {
      assert AddManyPattern[1..][1..][1..] == [];
    }
    assert Variables(SearchPattern) == 0 by {
      assert SearchPattern[1..][1..][1..] == [];
    }
    assert Variables(GetPattern) == 1 by {
      assert GetPattern[1..][1..][1..] == [];
    }
    assert Variables(DeletePattern) == 1 by {
      assert DeletePattern[1..][1..][1..][1..] == [];
    }
  }

  /** Both route tables list literal patterns before patterns with variables. */
  lemma RouteTablesSpecificFirst()
    ensures SpecificFirst(ServerRoutes) && SpecificFirst(CorrectedRoutes)
  {
    PatternVariables();
    assert SpecificFirst(ServerRoutes) by {
      assert forall i :: 0 <= i < 3 ==> Variables(ServerRoutes[i].pattern) == 0;
      assert forall i :: 3 <= i < 5 ==> Variables(ServerRoutes[i].pattern) == 1;
    }
    assert SpecificFirst(CorrectedRoutes) by {
      assert forall i :: 0 <= i < 3 ==> Variables(CorrectedRoutes[i].pattern) == 0;
      assert forall i :: 3 <= i < 5 ==> Variables(CorrectedRoutes[i].pattern) == 1;
    }
  }

  /** The first route that matches the request. */
  function FirstMatch(routes: seq<Route>, request: Request): (r: Option<nat>)
    ensures r.Some? ==> r.value < |routes| && RouteMatches(routes[r.value], request)
    ensures r.Some? ==> forall i :: 0 <= i < r.value ==> !RouteMatches(routes[i], request)
    ensures r.None? ==> forall i :: 0 <= i < |routes| ==> !RouteMatches(routes[i], request)
  {
    if routes == [] then None
    else if RouteMatches(routes[0], request) then Some(0)
    else
      match FirstMatch(routes[1..], request)
      case Some(i) => Some(i + 1)
      case None => None
  }

  /** Does some route map the request's path, whatever its verb? */
  predicate PathMapped(routes: seq<Route>, path: seq<string>) {
    exists i :: 0 <= i < |routes| && PathMatches(routes[i].pattern, path)
  }

  /** Dispatch: the handler of the most specific route for the verb and path; 405 when
      the path is mapped only for other verbs; 404 when it is not mapped at all. */
  function Dispatch(routes: seq<Route>, request: Request): (r: Outcome)
    ensures r.Handled? <==> exists i :: 0 <= i < |routes| && RouteMatches(routes[i], request)
    ensures r.Handled? ==> exists i :: 0 <= i < |routes| && RouteMatches(routes[i], request) && routes[i].handler == r.handler
    ensures r == NotFound <==> !PathMapped(routes, request.path)
  {
    match FirstMatch(routes, request)
    case Some(i) => Handled(routes[i].handler)
    case None => if PathMapped(routes, request.path) then MethodNotAllowed else NotFound
  }

  predicate IsDigit(c: char) {
    '0' <= c <= '9'
  }

  /** The decimal digits of `n`, as a template literal prints a non-negative integer. */
  function Digits(n: nat): (r: string)
    ensures r != []
    ensures forall k :: 0 <= k < |r| ==> IsDigit(r[k])
  {
    var d := ['0' + (n % 10) as char];
    if n < 10 then d else Digits(n / 10) + d
  }

  /** `${id}` for an integer id. */
  function Decimal(id: int): (r: string)
    ensures r != []
    ensures r[0] == '-' || IsDigit(r[0])
    ensures r[0] == '-' <==> id < 0
    ensures forall k :: 1 <= k < |r| ==> IsDigit(r[k])
  {
    if id < 0 then "-" + Digits(-id) else Digits(id)
  }

  /** The number a string of decimal digits denotes. */
  function DigitsValue(s: string): nat {
    if s == [] then 0
    else
      var d := s[|s| - 1] as int - '0' as int;
      DigitsValue(s[..|s| - 1]) * 10 + (if 0 <= d then d else 0)
  }

  /** Reading the digits back gives the number printed. */
  lemma {:induction false} DigitsRoundTrip(n: nat)
    ensures DigitsValue(Digits(n)) == n
    decreases n
  {
    var d := ['0' + (n % 10) as char];
    if n >= 10 {
      DigitsRoundTrip(n / 10);
      var s := Digits(n / 10) + d;
      assert s[..|s| - 1] == Digits(n / 10);
    }
  }

  /** Different ids print differently, so the path names one document. */
  lemma DecimalInjective(a: int, b: int)
    ensures Decimal(a) == Decimal(b) ==> a == b
  {
    if Decimal(a) == Decimal(b) {
      if a < 0 {
        assert Decimal(a)[1..] == Digits(-a) && Decimal(b)[1..] == Digits(-b);
        DigitsRoundTrip(-a);
        DigitsRoundTrip(-b);
      } else {
        DigitsRoundTrip(a);
        DigitsRoundTrip(b);
      }
    }
  }

  /** The client's requests: its base URL ends in "/api", and each call appends its path. */
  function ClientAdd(): Request {
    Request(Post, ["api", "documents"])
  }

  function ClientSearch(): Request {
    Request(Get, ["api", "documents", "search"])
  }

  function ClientGet(id: int): Request {
    Request(Get, ["api", "documents", Decimal(id)])
  }

  function ClientDelete(id: int): Request {
    Request(Delete, ["api", "documents", Decimal(id)])
  }

  /** The request the controller's delete mapping expects. */
  function ServerDelete(id: int): Request {
    Request(Delete, ["api", "documents", "documents", Decimal(id)])
  }

  lemma DecimalIsNoKeyword(id: int)
    ensures Decimal(id) != "search" && Decimal(id) != "many" && Decimal(id) != "documents"
  {
    var d := Decimal(id);
    assert d[0] == '-' || IsDigit(d[0]);
  }

  /** Dispatch runs the handler of the first route that matches. */
  lemma DispatchFirst(routes: seq<Route>, request: Request, i: nat)
    requires i < |routes| && RouteMatches(routes[i], request)
    requires forall j :: 0 <= j < i ==> !RouteMatches(routes[j], request)
    ensures Dispatch(routes, request) == Handled(routes[i].handler)
  {
    var m := FirstMatch(routes, request);
    assert m.Some? && m.value == i;
  }

  /** A route whose third segment is a literal other than the request's third path
      segment does not match it. */
  lemma ThirdSegmentDiffers(route: Route, request: Request)
    requires |route.pattern| > 2 && |request.path| > 2
    requires route.pattern[2].Lit? && route.pattern[2].text != request.path[2]
    ensures !RouteMatches(route, request)
  {
    assert !SegmentMatches(route.pattern[2], request.path[2]);
  }

  lemma AddRouted(routes: seq<Route>)
    requires ReadRoutesFirst(routes)
    ensures Dispatch(routes, ClientAdd()) == Handled(AddDocument)
  {
    assert PathMatches(AddPattern, ClientAdd().path);
    DispatchFirst(routes, ClientAdd(), 0);
  }

  lemma SearchRouted(routes: seq<Route>)
    requires ReadRoutesFirst(routes)
    ensures Dispatch(routes, ClientSearch()) == Handled(SearchDocuments)
  {
    ThirdSegmentDiffers(routes[1], ClientSearch());
    assert PathMatches(SearchPattern, ClientSearch().path);
    DispatchFirst(routes, ClientSearch(), 2);
  }

  lemma GetRouted(routes: seq<Route>, id: int)
    requires ReadRoutesFirst(routes)
    ensures Dispatch(routes, ClientGet(id)) == Handled(GetDocumentById)
  {
    DecimalIsNoKeyword(id);
    var req := ClientGet(id);
    ThirdSegmentDiffers(routes[2], req);
    assert PathMatches(GetPattern, req.path);
    DispatchFirst(routes, req, 3);
  }

  /** Creating, searching and fetching reach their handlers. */
  lemma ClientCallsRouted(id: int)
    ensures Dispatch(ServerRoutes, ClientAdd()) == Handled(AddDocument)
    ensures Dispatch(ServerRoutes, ClientSearch()) == Handled(SearchDocuments)
    ensures Dispatch(ServerRoutes, ClientGet(id)) == Handled(GetDocumentById)
  {
    assert ReadRoutesFirst(ServerRoutes);
    AddRouted(ServerRoutes);
    SearchRouted(ServerRoutes);
    GetRouted(ServerRoutes, id);
  }

  /** As declared, the delete mapping sits at "/api/documents/documents/{id}": the
      client's DELETE of "/api/documents/{id}" finds only the GET mapping there and is
      answered 405, never reaching the handler. */
  lemma DeleteNotRouted(id: int)
    ensures Dispatch(ServerRoutes, ClientDelete(id)) == MethodNotAllowed
    ensures Dispatch(ServerRoutes, ServerDelete(id)) == Handled(DeleteDocument)
  {
    var req := ClientDelete(id);
    assert !RouteMatches(ServerRoutes[4], req) by {
      assert |DeletePattern| != |req.path|;
    }
    forall i | 0 <= i < 4
      ensures !RouteMatches(ServerRoutes[i], req)
    {
      assert ServerRoutes[i].verb != Delete;
    }
    assert PathMatches(ServerRoutes[3].pattern, req.path);
    ServerDeleteRouted(id);
  }

  /** The delete handler is reached only at the path its mapping declares. */
  lemma ServerDeleteRouted(id: int)
    ensures Dispatch(ServerRoutes, ServerDelete(id)) == Handled(DeleteDocument)
  {
    var server := ServerDelete(id);
    assert PathMatches(DeletePattern, server.path);
    forall i | 0 <= i < 4
      ensures !RouteMatches(ServerRoutes[i], server)
    {
      assert ServerRoutes[i].verb != Delete;
    }
    DispatchFirst(ServerRoutes, server, 4);
  }

  /** With the delete mapping at "/{id}", the client's DELETE reaches deleteDocument. */
  lemma CorrectedDeleteRouted(id: int)
    ensures Dispatch(CorrectedRoutes, ClientDelete(id)) == Handled(DeleteDocument)
  {
    var req := ClientDelete(id);
    forall i | 0 <= i < 4
      ensures !RouteMatches(CorrectedRoutes[i], req)
    {
      assert CorrectedRoutes[i].verb != Delete;
    }
    assert PathMatches(GetPattern, req.path);
    DispatchFirst(CorrectedRoutes, req, 4);
  }

  /** With the delete mapping at "/{id}", every call of the client reaches its own
      handler. */
  lemma CorrectedClientCallsRouted(id: int)
    ensures Dispatch(CorrectedRoutes, ClientAdd()) == Handled(AddDocument)
    ensures Dispatch(CorrectedRoutes, ClientSearch()) == Handled(SearchDocuments)
    ensures Dispatch(CorrectedRoutes, ClientGet(id)) == Handled(GetDocumentById)
    ensures Dispatch(CorrectedRoutes, ClientDelete(id)) == Handled(DeleteDocument)
  {
    assert ReadRoutesFirst(CorrectedRoutes);
    AddRouted(CorrectedRoutes);
    SearchRouted(CorrectedRoutes);
    GetRouted(CorrectedRoutes, id);
    CorrectedDeleteRouted(id);
  }
}
