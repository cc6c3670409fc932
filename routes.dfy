/** The event router mounted at /api/events: an ordered list of (method, path pattern)
    registrations, each with its handler and whether `protect` runs first. Express tries
    the registrations in order and the first whose method and pattern fit handles the request. */
module EventRoutes {
  import opened Basics

  datatype Verb = GET | POST | PUT | DELETE

  datatype Handler =
    | GetPublicEvents | GetPublicEvent
    | GetEvents | CreateEvent | GetEvent | UpdateEvent | DeleteEvent
    | AttendEvent | AddComment | DeleteComment

  /** A pattern segment: literal text, or a `:name` parameter that takes one non-empty segment. */
  datatype Seg = Lit(text: string) | Param(name: string)

  datatype Route = Route(verb: Verb, pattern: seq<Seg>, guarded: bool, handler: Handler)

  /** The registrations in the order the router file makes them; the public reads come first. */
  const Table: seq<Route> := [
    Route(GET, [Lit("public")], false, GetPublicEvents),
    Route(GET, [Lit("public"), Param("id")], false, GetPublicEvent),
    Route(GET, [], true, GetEvents),
    Route(POST, [], true, CreateEvent),
    Route(GET, [Param("id")], true, GetEvent),
    Route(PUT, [Param("id")], true, UpdateEvent),
    Route(DELETE, [Param("id")], true, DeleteEvent),
    Route(POST, [Param("id"), Lit("attend")], true, AttendEvent),
    Route(POST, [Param("id"), Lit("comments")], true, AddComment),
    Route(DELETE, [Param("id"), Lit("comments"), Param("commentId")], true, DeleteComment)
  ]

  predicate SegMatches(s: Seg, part: string) {
    match s
    case Lit(t) => part == t
    case Param(_) => part != ""
  }

  /** A request path, split at '/' into its segments, fits a pattern. */
  predicate PathMatches(pattern: seq<Seg>, path: seq<string>) {
    |pattern| == |path| && forall k :: 0 <= k < |path| ==> SegMatches(pattern[k], path[k])
  }

  predicate Matches(r: Route, verb: Verb, path: seq<string>) {
    r.verb == verb && PathMatches(r.pattern, path)
  }

  /** The index of the first registration from `start` on that fits the request. */
  function FirstMatch(routes: seq<Route>, verb: Verb, path: seq<string>, start: nat): (r: Option<nat>)
    requires start <= |routes|
    ensures r.Some? ==> start <= r.value < |routes| && Matches(routes[r.value], verb, path)
    ensures r.Some? ==> forall j :: start <= j < r.value ==> !Matches(routes[j], verb, path)
    ensures r.None? ==> forall j :: start <= j < |routes| ==> !Matches(routes[j], verb, path)
    decreases |routes| - start
  {
    if start == |routes| then None
    else if Matches(routes[start], verb, path) then Some(start)
    else FirstMatch(routes, verb, path, start + 1)
  }

  /** The route parameters a path binds for a pattern it fits. */
  function Params(pattern: seq<Seg>, path: seq<string>): map<string, string>
    requires |pattern| == |path|
    decreases |pattern|
  {
    if pattern == [] then map[]
    else
      var rest := Params(pattern[1..], path[1..]);
      match pattern[0]
      case Param(n) => rest[n := path[0]]
      case Lit(_) => rest
  }

  /** Where the router sends a request, and whether `protect` runs before the handler. */
  datatype Target = Target(handler: Handler, guarded: bool, params: map<string, string>)

  function Dispatch(verb: Verb, path: seq<string>): (t: Option<Target>)
    ensures t.Some? <==> exists k :: 0 <= k < |Table| && Matches(Table[k], verb, path)
  {
    match FirstMatch(Table, verb, path, 0)
    case None => None
    case Some(k) => Some(Target(Table[k].handler, Table[k].guarded, Params(Table[k].pattern, path)))
  }

  /** Only the two public reads are registered without `protect`; every other handler is guarded. */
  lemma OnlyPublicReadsUnguarded()
    ensures forall k :: 0 <= k < |Table| ==>
      (!Table[k].guarded <==> Table[k].handler == GetPublicEvents || Table[k].handler == GetPublicEvent)
  {
  }

  /** Every controller action of the router is registered, and none twice. */
  lemma EveryHandlerRegisteredOnce(h: Handler)
    ensures exists k :: 0 <= k < |Table| && Table[k].handler == h
    ensures forall i, j :: 0 <= i < j < |Table| ==> Table[i].handler != Table[j].handler
  {
    match h
    case GetPublicEvents => assert Table[0].handler == h;
    case GetPublicEvent => assert Table[1].handler == h;
    case GetEvents => assert Table[2].handler == h;
    case CreateEvent => assert Table[3].handler == h;
    case GetEvent => assert Table[4].handler == h;
    case UpdateEvent => assert Table[5].handler == h;
    case DeleteEvent => assert Table[6].handler == h;
    case AttendEvent => assert Table[7].handler == h;
    case AddComment => assert Table[8].handler == h;
    case DeleteComment => assert Table[9].handler == h;
  }

  /** Each (method, pattern) pair is registered once, so it names exactly one handler. */
  lemma PairsDistinct()
    ensures forall i, j :: 0 <= i < j < |Table| ==>
      Table[i].verb != Table[j].verb || Table[i].pattern != Table[j].pattern
  {
  }

  /** A request that reaches a handler without `protect` is a GET under /public. */
  lemma UnguardedOnlyUnderPublic(verb: Verb, path: seq<string>)
    requires Dispatch(verb, path).Some? && !Dispatch(verb, path).value.guarded
    ensures verb == GET && 1 <= |path| <= 2 && path[0] == "public"
  {
    var k := FirstMatch(Table, verb, path, 0).value;
    assert k < 2;
    assert SegMatches(Table[k].pattern[0], path[0]);
  }

  /** '/public' is registered before '/:id': GET /public lists the public events, although
      the pattern '/:id' fits it too. */
  lemma PublicListBeforeGetEvent()
    ensures Matches(Table[4], GET, ["public"]) && Table[4].handler == GetEvent
    ensures Dispatch(GET, ["public"]) == Some(Target(GetPublicEvents, false, map[]))
  {
    assert Matches(Table[0], GET, ["public"]);
  }

  /** GET / goes guarded to getEvents, POST / guarded to createEvent. */
  lemma CollectionRoutes()
    ensures Dispatch(GET, []) == Some(Target(GetEvents, true, map[]))
    ensures Dispatch(POST, []) == Some(Target(CreateEvent, true, map[]))
  {
    assert Matches(Table[2], GET, []);
    assert Matches(Table[3], POST, []);
  }

  /** PUT /:id and DELETE /:id go guarded to updateEvent and deleteEvent with that id, also for
      the id "public", which only GET treats specially. */
  lemma UpdateAndDeleteRoutes(id: string)
    requires id != ""
    ensures Dispatch(PUT, [id]) == Some(Target(UpdateEvent, true, map["id" := id]))
    ensures Dispatch(DELETE, [id]) == Some(Target(DeleteEvent, true, map["id" := id]))
  {
    assert Matches(Table[5], PUT, [id]);
    assert Matches(Table[6], DELETE, [id]);
  }

  lemma PublicEventRoute(id: string)
    requires id != ""
    ensures Dispatch(GET, ["public", id]) == Some(Target(GetPublicEvent, false, map["id" := id]))
  {
    assert !Matches(Table[0], GET, ["public", id]);
    assert Matches(Table[1], GET, ["public", id]);
  }

  /** A single segment other than "public" goes to the guarded `getEvent` with that id. */
  lemma GetEventRoute(id: string)
    requires id != "" && id != "public"
    ensures Dispatch(GET, [id]) == Some(Target(GetEvent, true, map["id" := id]))
  {
    assert !SegMatches(Table[0].pattern[0], [id][0]);
    assert Matches(Table[4], GET, [id]);
  }

  lemma AttendRoute(id: string)
    requires id != ""
    ensures Dispatch(POST, [id, "attend"]) == Some(Target(AttendEvent, true, map["id" := id]))
  {
    assert forall j :: 0 <= j < 7 ==> !Matches(Table[j], POST, [id, "attend"]);
    assert Matches(Table[7], POST, [id, "attend"]);
  }

  lemma AddCommentRoute(id: string)
    requires id != ""
    ensures Dispatch(POST, [id, "comments"]) == Some(Target(AddComment, true, map["id" := id]))
  {
    assert !SegMatches(Table[7].pattern[1], [id, "comments"][1]);
    assert Matches(Table[8], POST, [id, "comments"]);
  }

  lemma DeleteCommentRoute(id: string, commentId: string)
    requires id != "" && commentId != ""
    ensures Dispatch(DELETE, [id, "comments", commentId])
         == Some(Target(DeleteComment, true, map["id" := id, "commentId" := commentId]))
  {
    var path := [id, "comments", commentId];
    assert forall j :: 0 <= j < 9 ==> !Matches(Table[j], DELETE, path);
    assert Matches(Table[9], DELETE, path);
    assert "id" != "commentId" by { assert "id"[0] != "commentId"[0]; }
    assert Params(Table[9].pattern, path) == map["commentId" := commentId]["id" := id]
                                          == map["id" := id, "commentId" := commentId];
    assert FirstMatch(Table, DELETE, path, 0) == Some(9);
  }
}
