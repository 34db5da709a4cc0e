/**
 Caddy app routes (engine/nasty-apps/src/caddy.rs).

 `CaddyJson` is the route object the engine builds and the readers that list it back.
 `CaddyRoutes` is Caddy's route list under the three admin API operations, each of whose
 HTTP calls may be answered, be refused, or take effect and lose its reply.
 */
module CaddyJson {
  import opened Base
  import opened Text

  datatype Json = Null | Bool(b: bool) | Str(text: string) | Arr(items: seq<Json>) | Obj(fields: map<string, Json>)

  function Get(v: Json, key: string): Option<Json> {
    if v.Obj? && key in v.fields then Some(v.fields[key]) else None
  }

  function AsText(v: Option<Json>): Option<string> {
    if v.Some? && v.value.Str? then Some(v.value.text) else None
  }

  function AsArray(v: Option<Json>): Option<seq<Json>> {
    if v.Some? && v.value.Arr? then Some(v.value.items) else None
  }

  const MAX_PORT: nat := 65_535

  type Port = n: nat | n <= MAX_PORT

  datatype AppRoute = AppRoute(name: string, hostPort: Port, subdomain: Option<string>)

  // ------------------------------------------------------------------ building

  const ID_PREFIX: string := "nasty-app-"

  function RouteId(name: string): string {
    ID_PREFIX + name
  }

  function Dial(port: Port): string {
    "127.0.0.1" + ":" + Decimal(port)
  }

  function Upstream(dial: string): Json {
    Obj(map["dial" := Str(dial)])
  }

  function RequestHeaders(): Json {
    Obj(map["request" := Obj(map["set" := Obj(map["X-Real-Ip" := Arr([Str("{http.request.remote.host}")])])])])
  }

  function ReverseProxy(dial: string): Json {
    Obj(map["handler" := Str("reverse_proxy"), "upstreams" := Arr([Upstream(dial)]),
            "headers" := RequestHeaders(), "stream_close_delay" := Str("30m")])
  }

  function StripPrefix(name: string): Json {
    Obj(map["handler" := Str("rewrite"), "strip_path_prefix" := Str("/apps/" + name)])
  }

  function MatchBlock(r: AppRoute): Json {
    if r.subdomain.Some? then Obj(map["host" := Arr([Str(r.subdomain.value)])])
    else Obj(map["path" := Arr([Str("/apps/" + r.name + "/*")])])
  }

  function InnerHandles(r: AppRoute): seq<Json> {
    if r.subdomain.Some? then [ReverseProxy(Dial(r.hostPort))]
    else [StripPrefix(r.name), ReverseProxy(Dial(r.hostPort))]
  }

  function Subroute(handles: seq<Json>): Json {
    Obj(map["handler" := Str("subroute"), "routes" := Arr([Obj(map["handle" := Arr(handles)])])])
  }

  function BuildRoute(r: AppRoute): Json {
    Obj(map["@id" := Str(RouteId(r.name)), "match" := Arr([MatchBlock(r)]),
            "handle" := Arr([Subroute(InnerHandles(r))]), "terminal" := Bool(true)])
  }

  // ------------------------------------------------------------------ reading back

  // `rsplit_once`: the part after the last separator.
  function AfterLast(s: string, c: char): Option<string> {
    if s == "" then None
    else if s[|s| - 1] == c then Some("")
    else
      var rest := AfterLast(s[..|s| - 1], c);
      if rest.None? then None else Some(rest.value + [s[|s| - 1]])
  }

  // The outcome of one loop of the port search: a port, a shape that ends the whole search,
  // or nothing yet.
  datatype Search = Found(port: Port) | Abort | Miss

  function PortOfDial(dial: string): Search {
    var digits := AfterLast(dial, ':');
    if digits.None? then Miss
    else
      var port := ParseUnsigned(digits.value, MAX_PORT);
      if port.None? then Miss else Found(port.value)
  }

  function PortOfProxy(handler: Json): Search {
    var upstreams := AsArray(Get(handler, "upstreams"));
    if upstreams.None? || upstreams.value == [] then Abort
    else
      var dial := AsText(Get(upstreams.value[0], "dial"));
      if dial.None? then Abort else PortOfDial(dial.value)
  }

  function PortInHandles(handles: seq<Json>): Search {
    if handles == [] then Miss
    else if AsText(Get(handles[0], "handler")) != Some("reverse_proxy") then PortInHandles(handles[1..])
    else
      var here := PortOfProxy(handles[0]);
      if here.Miss? then PortInHandles(handles[1..]) else here
  }

  function PortInRoutes(routes: seq<Json>): Search {
    if routes == [] then Miss
    else
      var handles := AsArray(Get(routes[0], "handle"));
      if handles.None? then Abort
      else
        var here := PortInHandles(handles.value);
        if here.Miss? then PortInRoutes(routes[1..]) else here
  }

  function PortInOuter(handles: seq<Json>): Search {
    if handles == [] then Miss
    else
      var routes := AsArray(Get(handles[0], "routes"));
      if routes.None? then Abort
      else
        var here := PortInRoutes(routes.value);
        if here.Miss? then PortInOuter(handles[1..]) else here
  }

  function UpstreamPort(route: Json): Option<Port> {
    var handles := AsArray(Get(route, "handle"));
    if handles.None? then None
    else
      var s := PortInOuter(handles.value);
      if s.Found? then Some(s.port) else None
  }

  function FirstHost(matches: seq<Json>): Option<string> {
    if matches == [] then None
    else
      var hosts := AsArray(Get(matches[0], "host"));
      if hosts.Some? && hosts.value != [] && hosts.value[0].Str? then Some(hosts.value[0].text)
      else FirstHost(matches[1..])
  }

  function RouteHost(route: Json): Option<string> {
    var matches := AsArray(Get(route, "match"));
    if matches.None? then None else FirstHost(matches.value)
  }

  function IdOf(route: Json): Option<string> {
    AsText(Get(route, "@id"))
  }

  // The app an engine-owned route belongs to.
  function AppName(route: Json): Option<string> {
    var id := IdOf(route);
    if id.Some? && ID_PREFIX <= id.value then Some(id.value[|ID_PREFIX|..]) else None
  }

  // One turn of the listing loop.
  function Listed(route: Json): Option<AppRoute> {
    var name, port := AppName(route), UpstreamPort(route);
    if name.None? || port.None? then None else Some(AppRoute(name.value, port.value, RouteHost(route)))
  }

  // ------------------------------------------------------------------ the round trip

  lemma {:induction false} AfterLastAt(a: string, c: char, b: string)
    requires c !in b
    ensures AfterLast(a + [c] + b, c) == Some(b)
  {
    var s := a + [c] + b;
    if b != "" {
      var init, last := b[..|b| - 1], b[|b| - 1];
      assert last in b && s[|s| - 1] == last;
      assert s[..|s| - 1] == a + [c] + init;
      AfterLastAt(a, c, init);
      assert init + [last] == b;
    }
  }

  lemma DialPort(port: Port)
    ensures PortOfDial(Dial(port)) == Found(port)
  {
    DecimalDigits(port);
    AfterLastAt("127.0.0.1", ':', Decimal(port));
    DecimalParses(port, MAX_PORT);
  }

  lemma ProxyPort(dial: string)
    ensures PortOfProxy(ReverseProxy(dial)) == PortOfDial(dial)
  {
    assert Get(ReverseProxy(dial), "upstreams") == Some(Arr([Upstream(dial)]));
    assert Get(Upstream(dial), "dial") == Some(Str(dial));
  }

  lemma HandlesPort(r: AppRoute)
    ensures PortInHandles(InnerHandles(r)) == Found(r.hostPort)
  {
    var dial := Dial(r.hostPort);
    DialPort(r.hostPort);
    ProxyPort(dial);
    var proxy := ReverseProxy(dial);
    assert AsText(Get(proxy, "handler")) == Some("reverse_proxy");
    assert PortInHandles([proxy]) == Found(r.hostPort);
    if r.subdomain.None? {
      assert AsText(Get(StripPrefix(r.name), "handler")) == Some("rewrite");
      assert "rewrite"[2] == 'w' && "reverse_proxy"[2] == 'v';
      assert InnerHandles(r)[1..] == [proxy];
    }
  }

  lemma BuiltPort(r: AppRoute)
    ensures UpstreamPort(BuildRoute(r)) == Some(r.hostPort)
  {
    HandlesPort(r);
    var handles := InnerHandles(r);
    var inner := Obj(map["handle" := Arr(handles)]);
    assert AsArray(Get(inner, "handle")) == Some(handles);
    assert PortInRoutes([inner]) == Found(r.hostPort);
    assert AsArray(Get(Subroute(handles), "routes")) == Some([inner]);
    assert PortInOuter([Subroute(handles)]) == Found(r.hostPort);
    assert AsArray(Get(BuildRoute(r), "handle")) == Some([Subroute(handles)]);
  }

  lemma BuiltHost(r: AppRoute)
    ensures RouteHost(BuildRoute(r)) == r.subdomain
  {
    assert AsArray(Get(BuildRoute(r), "match")) == Some([MatchBlock(r)]);
    if r.subdomain.None? {
      assert "host"[0] == 'h' && "path"[0] == 'p';
      assert Get(MatchBlock(r), "host").None?;
      assert FirstHost([MatchBlock(r)]) == FirstHost([]);
    } else {
      assert Get(MatchBlock(r), "host") == Some(Arr([Str(r.subdomain.value)]));
    }
  }

  lemma BuiltId(r: AppRoute)
    ensures IdOf(BuildRoute(r)) == Some(RouteId(r.name)) && AppName(BuildRoute(r)) == Some(r.name)
  {
    assert Get(BuildRoute(r), "@id") == Some(Str(RouteId(r.name)));
    assert RouteId(r.name)[|ID_PREFIX|..] == r.name;
  }

  /** Listing a built route recovers its name, port and subdomain. */
  lemma ListedBuilt(r: AppRoute)
    ensures Listed(BuildRoute(r)) == Some(r)
  {
    BuiltId(r);
    BuiltPort(r);
    BuiltHost(r);
  }
}

module CaddyRoutes {
  import opened Base
  import opened CaddyJson

  predicate Engine(route: Json) {
    AppName(route).Some?
  }

  // An engine route that the listing skips, because no upstream port can be read from it.
  predicate Malformed(route: Json) {
    Engine(route) && UpstreamPort(route).None?
  }

  function ListAll(routes: seq<Json>): seq<AppRoute> {
    if routes == [] then []
    else (if Listed(routes[0]).Some? then [Listed(routes[0]).value] else []) + ListAll(routes[1..])
  }

  // The routes that are not the engine's, in order.
  function Statics(routes: seq<Json>): seq<Json> {
    if routes == [] then []
    else (if Engine(routes[0]) then [] else [routes[0]]) + Statics(routes[1..])
  }

  // Deleting by id removes the first route that carries it.
  function Deleted(routes: seq<Json>, id: string): seq<Json> {
    if routes == [] then []
    else if IdOf(routes[0]) == Some(id) then routes[1..]
    else [routes[0]] + Deleted(routes[1..], id)
  }

  function Names(list: seq<AppRoute>): set<string> {
    set r | r in list :: r.name
  }

  // ------------------------------------------------------------------ the admin API

  // A call is answered, refused without effect, or takes effect while its reply is lost.
  datatype Outcome = Answered | Refused | Lost

  class Caddy {
    var routes: seq<Json>
    var calls: nat
    const outcomes: nat -> Outcome

    constructor (routes: seq<Json>, outcomes: nat -> Outcome)
      ensures this.routes == routes && this.outcomes == outcomes && calls == 0
    {
      this.routes := routes;
      this.outcomes := outcomes;
      calls := 0;
    }

    // Were the calls from `since` on all answered?
    ghost predicate AllAnswered(since: nat)
      reads this
    {
      forall n | since <= n < calls :: outcomes(n) == Answered
    }

    method Call() returns (o: Outcome)
      modifies this`calls
      ensures calls == old(calls) + 1 && o == outcomes(old(calls))
    {
      o := outcomes(calls);
      calls := calls + 1;
    }

    // Looks up the server, reads its routes, and lists the engine's.
    method ListAppRoutes() returns (r: Option<seq<AppRoute>>)
      modifies this`calls
      ensures calls > old(calls)
      ensures r.Some? ==> r.value == ListAll(routes)
      ensures AllAnswered(old(calls)) ==> r.Some?
    {
      var server := Call();
      if server != Answered {
        return None;
      }
      var list := Call();
      if list != Answered {
        return None;
      }
      r := Some(ListAll(routes));
    }

    method RemoveAppRoute(name: string) returns (ok: bool)
      modifies this
      ensures calls == old(calls) + 1
      ensures routes == old(routes) || routes == Deleted(old(routes), RouteId(name))
      ensures ok ==> routes == Deleted(old(routes), RouteId(name))
      ensures ok <==> outcomes(old(calls)) == Answered
    {
      var o := Call();
      if o != Refused {
        routes := Deleted(routes, RouteId(name));
      }
      ok := o == Answered;
    }

    /** A failed lookup leaves the route list alone; otherwise the old route of that name is
        deleted and the new one put in front.  The outcome of the deletion is ignored. */
    method SetAppRoute(r: AppRoute) returns (ok: bool)
      modifies this
      ensures calls > old(calls)
      ensures outcomes(old(calls)) != Answered ==> !ok && routes == old(routes)
      ensures ok && AllAnswered(old(calls)) ==> routes == Installed(old(routes), r)
      ensures AllAnswered(old(calls)) ==> ok
      ensures ok ==> routes == Installed(old(routes), r) || routes == [BuildRoute(r)] + old(routes)
      ensures Statics(routes) == Statics(old(routes))
    {
      DeletedKeepsStatics(routes, r.name);
      BuiltId(r);
      ghost var kept := Deleted(routes, RouteId(r.name));
      FrontKeepsStatics(routes, r);
      FrontKeepsStatics(kept, r);
      var server := Call();
      if server != Answered {
        return false;
      }
      var _ := RemoveAppRoute(r.name);
      var put := Call();
      if put != Refused {
        routes := [BuildRoute(r)] + routes;
      }
      ok := put == Answered;
    }

    /** Whatever the outcomes, the static routes and their order are untouched.  When every
        call is answered, the route list becomes `Replaced`. */
    method ReplaceAppRoutes(desired: seq<AppRoute>)
      modifies this
      ensures Statics(routes) == Statics(old(routes))
      ensures AllAnswered(old(calls)) ==> routes == Replaced(old(routes), desired)
    {
      ghost var before := routes;
      var listing := ListAppRoutes();
      var existing := if listing.Some? then listing.value else [];
      RemoveStale(existing, Names(desired));
      ghost var cleared := routes;
      var i := 0;
      while i < |desired|
        invariant 0 <= i <= |desired| && calls >= old(calls)
        invariant Statics(routes) == Statics(before)
        invariant AllAnswered(old(calls)) ==> cleared == Cleared(before, ListAll(before), Names(desired))
        invariant AllAnswered(old(calls)) ==> routes == InstalledAll(cleared, desired[..i])
      {
        var _ := SetAppRoute(desired[i]);
        assert desired[..i + 1][..i] == desired[..i];
        i := i + 1;
      }
      assert desired[..|desired|] == desired;
    }

    // The first loop: every listed route whose name is not wanted is removed.
    method RemoveStale(existing: seq<AppRoute>, wanted: set<string>)
      modifies this
      ensures calls >= old(calls)
      ensures Statics(routes) == Statics(old(routes))
      ensures AllAnswered(old(calls)) ==> routes == Cleared(old(routes), existing, wanted)
    {
      var i := 0;
      while i < |existing|
        invariant 0 <= i <= |existing| && calls >= old(calls)
        invariant Statics(routes) == Statics(old(routes))
        invariant AllAnswered(old(calls)) ==> routes == Cleared(old(routes), existing[..i], wanted)
      {
        assert existing[..i + 1][..i] == existing[..i];
        if existing[i].name !in wanted {
          DeletedKeepsStatics(routes, existing[i].name);
          var _ := RemoveAppRoute(existing[i].name);
        }
        i := i + 1;
      }
      assert existing[..|existing|] == existing;
    }
  }

  // ------------------------------------------------------------------ what the calls compute

  function Installed(routes: seq<Json>, r: AppRoute): seq<Json> {
    [BuildRoute(r)] + Deleted(routes, RouteId(r.name))
  }

  function InstalledAll(routes: seq<Json>, rs: seq<AppRoute>): seq<Json> {
    if rs == [] then routes else Installed(InstalledAll(routes, rs[..|rs| - 1]), rs[|rs| - 1])
  }

  function Cleared(routes: seq<Json>, existing: seq<AppRoute>, wanted: set<string>): seq<Json> {
    if existing == [] then routes
    else
      var before := Cleared(routes, existing[..|existing| - 1], wanted);
      var last := existing[|existing| - 1].name;
      if last in wanted then before else Deleted(before, RouteId(last))
  }

  function Replaced(routes: seq<Json>, desired: seq<AppRoute>): seq<Json> {
    InstalledAll(Cleared(routes, ListAll(routes), Names(desired)), desired)
  }

  // ------------------------------------------------------------------ static routes

  lemma IdIsEngine(route: Json, name: string)
    requires IdOf(route) == Some(RouteId(name))
    ensures AppName(route) == Some(name)
  {
    assert RouteId(name)[|ID_PREFIX|..] == name;
  }

  lemma {:induction false} DeletedKeepsStatics(routes: seq<Json>, name: string)
    ensures Statics(Deleted(routes, RouteId(name))) == Statics(routes)
  {
    if routes != [] {
      var id := RouteId(name);
      if IdOf(routes[0]) == Some(id) {
        IdIsEngine(routes[0], name);
      } else {
        DeletedKeepsStatics(routes[1..], name);
        assert Deleted(routes, id)[1..] == Deleted(routes[1..], id);
      }
    }
  }

  lemma FrontKeepsStatics(routes: seq<Json>, r: AppRoute)
    ensures Statics([BuildRoute(r)] + routes) == Statics(routes)
  {
    BuiltId(r);
    assert ([BuildRoute(r)] + routes)[1..] == routes;
  }

  // ------------------------------------------------------------------ what the result is

  // No two routes carry the same id.
  ghost predicate UniqueIds(routes: seq<Json>) {
    routes != [] ==>
      && (forall r | r in routes[1..] && IdOf(routes[0]).Some? :: IdOf(r) != IdOf(routes[0]))
      && UniqueIds(routes[1..])
  }

  predicate Carries(route: Json, ids: set<string>) {
    IdOf(route).Some? && IdOf(route).value in ids
  }

  // The routes that carry none of the ids.
  function Without(routes: seq<Json>, ids: set<string>): seq<Json> {
    if routes == [] then []
    else (if Carries(routes[0], ids) then [] else [routes[0]]) + Without(routes[1..], ids)
  }

  lemma {:induction false} WithoutUnused(routes: seq<Json>, ids: set<string>)
    requires forall r | r in routes :: !Carries(r, ids)
    ensures Without(routes, ids) == routes
  {
    if routes != [] {
      WithoutUnused(routes[1..], ids);
      assert routes == [routes[0]] + routes[1..];
    }
  }

  lemma {:induction false} WithoutMembers(routes: seq<Json>, ids: set<string>)
    ensures forall r :: r in Without(routes, ids) <==> r in routes && !Carries(r, ids)
  {
    if routes != [] {
      WithoutMembers(routes[1..], ids);
      assert forall r :: r in routes <==> r == routes[0] || r in routes[1..];
    }
  }

  lemma {:induction false} DeletedIsWithout(routes: seq<Json>, id: string)
    requires UniqueIds(routes)
    ensures Deleted(routes, id) == Without(routes, {id})
  {
    if routes != [] {
      if IdOf(routes[0]) == Some(id) {
        WithoutUnused(routes[1..], {id});
      } else {
        DeletedIsWithout(routes[1..], id);
      }
    }
  }

  lemma {:induction false} WithoutKeepsUnique(routes: seq<Json>, ids: set<string>)
    requires UniqueIds(routes)
    ensures UniqueIds(Without(routes, ids))
  {
    if routes != [] {
      WithoutKeepsUnique(routes[1..], ids);
      WithoutMembers(routes[1..], ids);
      if !Carries(routes[0], ids) {
        assert Without(routes, ids)[1..] == Without(routes[1..], ids);
      } else {
        assert Without(routes, ids) == Without(routes[1..], ids);
      }
    }
  }

  lemma {:induction false} WithoutTwice(routes: seq<Json>, a: set<string>, b: set<string>)
    ensures Without(Without(routes, a), b) == Without(routes, a + b)
  {
    if routes != [] {
      WithoutTwice(routes[1..], a, b);
      if !Carries(routes[0], a) {
        assert Without(routes, a)[1..] == Without(routes[1..], a);
      } else {
        assert Without(routes, a) == Without(routes[1..], a);
      }
    }
  }

  // The ids of the listed routes that are not wanted.
  function StaleIds(existing: seq<AppRoute>, wanted: set<string>): set<string> {
    set r | r in existing && r.name !in wanted :: RouteId(r.name)
  }

  lemma {:induction false} ClearedIsWithout(routes: seq<Json>, existing: seq<AppRoute>, wanted: set<string>)
    requires UniqueIds(routes)
    ensures Cleared(routes, existing, wanted) == Without(routes, StaleIds(existing, wanted))
  {
    if existing == [] {
      assert StaleIds(existing, wanted) == {};
      WithoutUnused(routes, {});
    } else {
      var front, last := existing[..|existing| - 1], existing[|existing| - 1];
      assert existing == front + [last];
      ClearedIsWithout(routes, front, wanted);
      var stale := StaleIds(front, wanted);
      if last.name in wanted {
        assert StaleIds(existing, wanted) == stale;
      } else {
        assert StaleIds(existing, wanted) == stale + {RouteId(last.name)};
        WithoutKeepsUnique(routes, stale);
        DeletedIsWithout(Without(routes, stale), RouteId(last.name));
        WithoutTwice(routes, stale, {RouteId(last.name)});
      }
    }
  }

  // The built routes, the last one in front.
  function Built(rs: seq<AppRoute>): seq<Json> {
    if rs == [] then [] else [BuildRoute(rs[|rs| - 1])] + Built(rs[..|rs| - 1])
  }

  function Ids(rs: seq<AppRoute>): set<string> {
    set r | r in rs :: RouteId(r.name)
  }

  predicate DistinctNames(rs: seq<AppRoute>) {
    forall i, j | 0 <= i < j < |rs| :: rs[i].name != rs[j].name
  }

  lemma {:induction false} BuiltMembers(rs: seq<AppRoute>, b: Json) returns (r: AppRoute)
    requires b in Built(rs)
    ensures r in rs && b == BuildRoute(r)
  {
    var last := rs[|rs| - 1];
    if b == BuildRoute(last) {
      r := last;
    } else {
      r := BuiltMembers(rs[..|rs| - 1], b);
    }
  }

  // Distinct names have distinct ids.
  lemma RouteIdInjective(a: string, b: string)
    requires RouteId(a) == RouteId(b)
    ensures a == b
  {
    assert RouteId(a)[|ID_PREFIX|..] == a && RouteId(b)[|ID_PREFIX|..] == b;
  }

  lemma BuiltLacks(rs: seq<AppRoute>, r: AppRoute)
    requires r.name !in Names(rs)
    ensures forall b | b in Built(rs) :: !Carries(b, {RouteId(r.name)})
  {
    forall b | b in Built(rs)
      ensures !Carries(b, {RouteId(r.name)})
    {
      var other := BuiltMembers(rs, b);
      BuiltId(other);
      if RouteId(other.name) == RouteId(r.name) {
        RouteIdInjective(other.name, r.name);
      }
    }
  }

  // Deleting an id that the first part lacks.
  lemma {:induction false} DeletedBehind(x: seq<Json>, y: seq<Json>, id: string)
    requires forall r | r in x :: !Carries(r, {id})
    ensures Deleted(x + y, id) == x + Deleted(y, id)
  {
    if x == [] {
      assert x + y == y;
    } else {
      assert !Carries(x[0], {id});
      DeletedBehind(x[1..], y, id);
      assert (x + y)[1..] == x[1..] + y;
      assert x + Deleted(y, id) == [x[0]] + (x[1..] + Deleted(y, id));
    }
  }

  lemma {:induction false} InstalledAllIs(routes: seq<Json>, rs: seq<AppRoute>)
    requires UniqueIds(routes) && DistinctNames(rs)
    ensures InstalledAll(routes, rs) == Built(rs) + Without(routes, Ids(rs))
  {
    if rs == [] {
      assert Ids(rs) == {};
      WithoutUnused(routes, {});
    } else {
      var front, last := rs[..|rs| - 1], rs[|rs| - 1];
      assert rs == front + [last];
      assert last.name !in Names(front);
      assert Ids(rs) == Ids(front) + {RouteId(last.name)};
      InstalledAllIs(routes, front);
      BuiltLacks(front, last);
      DeletedFrom(Built(front), routes, Ids(front), RouteId(last.name));
      Prepend(BuildRoute(last), Built(front), Without(routes, Ids(rs)));
    }
  }

  lemma Prepend(b: Json, x: seq<Json>, y: seq<Json>)
    ensures [b] + (x + y) == [b] + x + y
  {
  }

  lemma DeletedFrom(x: seq<Json>, routes: seq<Json>, ids: set<string>, id: string)
    requires UniqueIds(routes) && forall r | r in x :: !Carries(r, {id})
    ensures Deleted(x + Without(routes, ids), id) == x + Without(routes, ids + {id})
  {
    DeletedBehind(x, Without(routes, ids), id);
    WithoutKeepsUnique(routes, ids);
    DeletedIsWithout(Without(routes, ids), id);
    WithoutTwice(routes, ids, {id});
  }

  // A route that a full replacement leaves in the list.
  predicate Survives(route: Json, wanted: set<string>) {
    !Engine(route) || (Malformed(route) && AppName(route).value !in wanted)
  }

  function Survivors(routes: seq<Json>, wanted: set<string>): seq<Json> {
    if routes == [] then []
    else (if Survives(routes[0], wanted) then [routes[0]] else []) + Survivors(routes[1..], wanted)
  }

  // The ids removed on the way: stale listed ones and wanted ones.
  function Gone(routes: seq<Json>, desired: seq<AppRoute>): set<string> {
    StaleIds(ListAll(routes), Names(desired)) + Ids(desired)
  }

  lemma {:induction false} ListAllMember(routes: seq<Json>, r: AppRoute)
    ensures r in ListAll(routes) <==> exists j | j in routes :: Listed(j) == Some(r)
  {
    if routes != [] {
      ListAllMember(routes[1..], r);
      assert forall j :: j in routes <==> j == routes[0] || j in routes[1..];
    }
  }

  lemma NameGivesId(route: Json)
    requires Engine(route)
    ensures IdOf(route) == Some(RouteId(AppName(route).value))
  {
    var id := IdOf(route).value;
    assert id == ID_PREFIX + id[|ID_PREFIX|..];
  }

  lemma {:induction false} SameIdSameRoute(routes: seq<Json>, a: Json, b: Json)
    requires UniqueIds(routes) && a in routes && b in routes && IdOf(a).Some? && IdOf(a) == IdOf(b)
    ensures a == b
  {
    if a != routes[0] && b != routes[0] {
      SameIdSameRoute(routes[1..], a, b);
    }
  }

  lemma GoneIff(routes: seq<Json>, desired: seq<AppRoute>, route: Json)
    requires UniqueIds(routes) && route in routes
    ensures Carries(route, Gone(routes, desired)) <==> !Survives(route, Names(desired))
  {
    if Carries(route, Gone(routes, desired)) {
      CarriedIsGone(routes, desired, route);
    }
    if !Survives(route, Names(desired)) {
      NameGivesId(route);
      var name := AppName(route).value;
      if name in Names(desired) {
        var r :| r in desired && r.name == name;
        assert RouteId(name) in Ids(desired);
      } else {
        ListAllMember(routes, Listed(route).value);
        assert Listed(route).value in ListAll(routes);
        assert RouteId(name) in StaleIds(ListAll(routes), Names(desired));
      }
    }
  }

  lemma CarriedIsGone(routes: seq<Json>, desired: seq<AppRoute>, route: Json)
    requires UniqueIds(routes) && route in routes && Carries(route, Gone(routes, desired))
    ensures !Survives(route, Names(desired))
  {
    var id := IdOf(route).value;
    if id in Ids(desired) {
      var r :| r in desired && RouteId(r.name) == id;
      IdIsEngine(route, r.name);
    } else {
      var r :| r in ListAll(routes) && r.name !in Names(desired) && RouteId(r.name) == id;
      ListAllMember(routes, r);
      var j :| j in routes && Listed(j) == Some(r);
      NameGivesId(j);
      SameIdSameRoute(routes, j, route);
    }
  }

  lemma {:induction false} WithoutIsSurvivors(part: seq<Json>, routes: seq<Json>, desired: seq<AppRoute>)
    requires UniqueIds(routes) && forall r | r in part :: r in routes
    ensures Without(part, Gone(routes, desired)) == Survivors(part, Names(desired))
  {
    if part != [] {
      GoneIff(routes, desired, part[0]);
      WithoutIsSurvivors(part[1..], routes, desired);
    }
  }

  /** A fully answered replacement puts the desired routes in front, the last one first, and
      keeps of the old list exactly the survivors: the static routes in their order, and the
      malformed engine routes whose names are not wanted. */
  lemma ReplacedIs(routes: seq<Json>, desired: seq<AppRoute>)
    requires UniqueIds(routes) && DistinctNames(desired)
    ensures Replaced(routes, desired) == Built(desired) + Survivors(routes, Names(desired))
  {
    var existing, wanted := ListAll(routes), Names(desired);
    var stale := StaleIds(existing, wanted);
    ClearedIsWithout(routes, existing, wanted);
    WithoutKeepsUnique(routes, stale);
    InstalledAllIs(Without(routes, stale), desired);
    WithoutTwice(routes, stale, Ids(desired));
    WithoutIsSurvivors(routes, routes, desired);
  }

  ghost predicate StaleMalformed(routes: seq<Json>, wanted: set<string>) {
    exists r | r in routes :: Malformed(r) && AppName(r).value !in wanted
  }

  lemma {:induction false} SurvivorsAreStatics(routes: seq<Json>, wanted: set<string>)
    ensures !StaleMalformed(routes, wanted) ==> Survivors(routes, wanted) == Statics(routes)
    ensures StaleMalformed(routes, wanted) ==> exists r :: r in Survivors(routes, wanted) && Engine(r)
  {
    if routes != [] {
      SurvivorsAreStatics(routes[1..], wanted);
      assert forall r :: r in routes <==> r == routes[0] || r in routes[1..];
      if StaleMalformed(routes, wanted) && !Survives(routes[0], wanted) {
        assert StaleMalformed(routes[1..], wanted);
      }
      if StaleMalformed(routes, wanted) && Survives(routes[0], wanted) && Engine(routes[0]) {
        assert routes[0] in Survivors(routes, wanted);
      }
      if StaleMalformed(routes, wanted) && !Engine(routes[0]) {
        assert StaleMalformed(routes[1..], wanted);
        var r :| r in Survivors(routes[1..], wanted) && Engine(r);
        assert r in Survivors(routes, wanted);
      }
    }
  }

  lemma {:induction false} StaticsMembers(routes: seq<Json>)
    ensures forall r | r in Statics(routes) :: !Engine(r)
  {
    if routes != [] {
      StaticsMembers(routes[1..]);
    }
  }

  lemma SameTail(x: seq<Json>, y: seq<Json>, z: seq<Json>)
    ensures x + y == x + z ==> y == z
  {
    assert (x + y)[|x|..] == y && (x + z)[|x|..] == z;
  }

  /** The replacement yields the desired engine routes ahead of the unchanged static routes,
      and nothing else, exactly when no engine route with an unwanted name is malformed. */
  lemma ReplacementIsExactIff(routes: seq<Json>, desired: seq<AppRoute>)
    requires UniqueIds(routes) && DistinctNames(desired)
    ensures Replaced(routes, desired) == Built(desired) + Statics(routes) <==> !StaleMalformed(routes, Names(desired))
  {
    var wanted := Names(desired);
    ReplacedIs(routes, desired);
    SurvivorsAreStatics(routes, wanted);
    if StaleMalformed(routes, wanted) {
      var r :| r in Survivors(routes, wanted) && Engine(r);
      StaticsMembers(routes);
      SameTail(Built(desired), Survivors(routes, wanted), Statics(routes));
    }
  }

  /** For example, a route with the engine's id and no handlers outlives a replacement that
      does not want it. */
  lemma BareRouteStays(name: string)
    ensures var bare := Obj(map["@id" := Str(RouteId(name))]);
            UniqueIds([bare]) && Engine(bare) && Replaced([bare], []) == [bare]
  {
    var bare := Obj(map["@id" := Str(RouteId(name))]);
    assert Get(bare, "@id") == Some(Str(RouteId(name)));
    IdIsEngine(bare, name);
    assert "@id"[0] == '@' && "handle"[0] == 'h';
    assert Get(bare, "handle").None?;
    assert Listed(bare).None?;
    assert ListAll([bare]) == [];
  }

  /** Listing the result gives the desired routes back, the last one first, when the engine
      routes that were there are well formed. */
  lemma ReplacementListsDesired(routes: seq<Json>, desired: seq<AppRoute>)
    requires UniqueIds(routes) && DistinctNames(desired) && !StaleMalformed(routes, Names(desired))
    ensures ListAll(Replaced(routes, desired)) == Reversed(desired)
  {
    ReplacementIsExactIff(routes, desired);
    ListBuilt(desired, Statics(routes));
    StaticsMembers(routes);
    ListStatics(Statics(routes));
  }

  function Reversed(rs: seq<AppRoute>): seq<AppRoute> {
    if rs == [] then [] else [rs[|rs| - 1]] + Reversed(rs[..|rs| - 1])
  }

  lemma {:induction false} ListStatics(routes: seq<Json>)
    requires forall r | r in routes :: !Engine(r)
    ensures ListAll(routes) == []
  {
    if routes != [] {
      assert !Engine(routes[0]);
      ListStatics(routes[1..]);
    }
  }

  lemma {:induction false} ListBuilt(rs: seq<AppRoute>, rest: seq<Json>)
    ensures ListAll(Built(rs) + rest) == Reversed(rs) + ListAll(rest)
  {
    if rs == [] {
      assert Built(rs) + rest == rest;
    } else {
      var front, last := rs[..|rs| - 1], rs[|rs| - 1];
      ListBuilt(front, rest);
      ListedBuilt(last);
      Prepend(BuildRoute(last), Built(front), rest);
      ListFront(BuildRoute(last), last, Built(front) + rest);
    }
  }

  lemma ListFront(b: Json, r: AppRoute, rest: seq<Json>)
    requires Listed(b) == Some(r)
    ensures ListAll([b] + rest) == [r] + ListAll(rest)
  {
    assert ([b] + rest)[1..] == rest;
  }
}
