/** The runtime's router: the table's routes and the synthetic preflight ones, and the
    claim that ties the published document to what is served. */
module Serving {
  import opened Wrappers
  import opened Text
  import opened Paths
  import Escaping
  import Operations
  import R = Router
  import S = Substitute
  import T = RouteTable
  import C = Copying
  import O = Documents
  import M = Merger

  datatype Bound = Bound(route: T.Route) | Preflight(path: string, cors: seq<string>)

  function TableEntries(routes: seq<T.Route>): (entries: seq<R.Route<Bound>>)
    ensures |entries| == |routes|
  {
    seq(|routes|, i requires 0 <= i < |routes| => TableEntry(routes[i]))
  }

  function TableEntry(r: T.Route): R.Route<Bound> {
    R.Route(ToUpper(r.verb), r.gatewayPath, Bound(r))
  }

  // ---- what needs a preflight route ----

  /** The CORS middleware that routes at a path use. */
  function CorsNames(routes: seq<T.Route>, isCors: string -> bool, path: string): set<string> {
    set r, name | r in routes && r.gatewayPath == path && name in r.middleware && isCors(name) :: name
  }

  /** Some route at the path uses CORS and none there serves OPTIONS. */
  predicate NeedsPreflight(routes: seq<T.Route>, isCors: string -> bool, path: string) {
    CorsNames(routes, isCors, path) != {} && !T.HasRoute(routes, "OPTIONS", path)
  }

  datatype PathInfo = PathInfo(methods: seq<string>, cors: seq<string>)

  ghost predicate InfoRight(routes: seq<T.Route>, isCors: string -> bool, path: string, info: PathInfo) {
    && (forall verb :: verb in info.methods <==> T.HasRoute(routes, verb, path))
    && Lists(info.cors, CorsNames(routes, isCors, path))
  }

  /** The elements of a set, each once. */
  ghost predicate Lists(names: seq<string>, all: set<string>) {
    && (forall name :: name in names <==> name in all)
    && (forall i, j | 0 <= i < j < |names| :: names[i] != names[j])
  }

  ghost predicate ByPathRight(routes: seq<T.Route>, isCors: string -> bool, byPath: map<string, PathInfo>) {
    && (forall path {:trigger InfoRight(routes, isCors, path, byPath[path])} | path in byPath ::
          InfoRight(routes, isCors, path, byPath[path]))
    && (forall r | r in routes :: r.gatewayPath in byPath)
  }

  /** The CORS middleware of one route, added once each. */
  method AddCors(names: seq<string>, isCors: string -> bool, cors: seq<string>, ghost all: set<string>)
    returns (out: seq<string>)
    requires Lists(cors, all)
    ensures Lists(out, all + set name | name in names && isCors(name))
  {
    out := cors;
    for i := 0 to |names|
      invariant Lists(out, all + set name | name in names[..i] && isCors(name))
    {
      assert names[..i + 1] == names[..i] + [names[i]];
      if isCors(names[i]) && names[i] !in out {
        out := out + [names[i]];
      }
    }
    assert names[..|names|] == names;
  }

  method CollectPaths(routes: seq<T.Route>, isCors: string -> bool) returns (byPath: map<string, PathInfo>)
    ensures ByPathRight(routes, isCors, byPath)
  {
    byPath := map[];
    for i := 0 to |routes|
      invariant ByPathRight(routes[..i], isCors, byPath)
    {
      var r := routes[i];
      var info := if r.gatewayPath in byPath then byPath[r.gatewayPath] else PathInfo([], []);
      InfoSoFar(routes[..i], isCors, byPath, r.gatewayPath, info);
      var cors := AddCors(r.middleware, isCors, info.cors, CorsNames(routes[..i], isCors, r.gatewayPath));
      ByPathPush(routes[..i], isCors, byPath, r, info, cors);
      assert routes[..i + 1] == routes[..i] + [r];
      byPath := byPath[r.gatewayPath := PathInfo(info.methods + [r.verb], cors)];
    }
    assert routes[..|routes|] == routes;
  }

  lemma InfoSoFar(routes: seq<T.Route>, isCors: string -> bool, byPath: map<string, PathInfo>, path: string,
                  info: PathInfo)
    requires ByPathRight(routes, isCors, byPath)
    requires info == if path in byPath then byPath[path] else PathInfo([], [])
    ensures InfoRight(routes, isCors, path, info)
  {
    assert path in byPath ==> InfoRight(routes, isCors, path, byPath[path]);
  }

  lemma CorsNamesPush(routes: seq<T.Route>, r: T.Route, isCors: string -> bool, path: string)
    ensures CorsNames(routes + [r], isCors, path)
         == CorsNames(routes, isCors, path)
            + if r.gatewayPath == path then set name | name in r.middleware && isCors(name) else {}
  {
    assert forall x :: x in routes + [r] <==> x in routes || x == r;
  }

  lemma ByPathPush(routes: seq<T.Route>, isCors: string -> bool, byPath: map<string, PathInfo>,
                   r: T.Route, info: PathInfo, cors: seq<string>)
    requires ByPathRight(routes, isCors, byPath)
    requires InfoRight(routes, isCors, r.gatewayPath, info)
    requires Lists(cors, CorsNames(routes, isCors, r.gatewayPath) + set name | name in r.middleware && isCors(name))
    ensures ByPathRight(routes + [r], isCors, byPath[r.gatewayPath := PathInfo(info.methods + [r.verb], cors)])
  {
    var more := byPath[r.gatewayPath := PathInfo(info.methods + [r.verb], cors)];
    forall path | path in more ensures InfoRight(routes + [r], isCors, path, more[path]) {
      CorsNamesPush(routes, r, isCors, path);
      assert path in byPath ==> InfoRight(routes, isCors, path, byPath[path]);
      forall verb ensures verb in more[path].methods <==> T.HasRoute(routes + [r], verb, path) {
        T.HasRoutePush(routes, r, verb, path);
      }
    }
  }

  /** The keys of a map, sorted. */
  method SortedKeys(byPath: map<string, PathInfo>) returns (keys: seq<string>)
    ensures R.Ascending(keys) && forall p :: p in keys <==> p in byPath
  {
    keys := [];
    var todo := byPath.Keys;
    while todo != {}
      invariant R.Ascending(keys) && todo <= byPath.Keys
      invariant forall p :: p in keys <==> p in byPath && p !in todo
      decreases todo
    {
      var p :| p in todo;
      keys := R.Inserted(keys, p);
      todo := todo - {p};
    }
  }

  // ---- the router ----

  /** The paths that need a preflight route. */
  function Needing(routes: seq<T.Route>, isCors: string -> bool): set<string> {
    set r | r in routes && NeedsPreflight(routes, isCors, r.gatewayPath) :: r.gatewayPath
  }

  lemma NeedingIs(routes: seq<T.Route>, isCors: string -> bool, path: string)
    ensures path in Needing(routes, isCors) <==> NeedsPreflight(routes, isCors, path)
  {
    if NeedsPreflight(routes, isCors, path) {
      var name :| name in CorsNames(routes, isCors, path);
      var r :| r in routes && r.gatewayPath == path && name in r.middleware;
    }
  }

  predicate SameShape(p: string, q: string) {
    TemplateShape(p) == TemplateShape(q)
  }

  ghost predicate OptionsTaken(table: seq<R.Route<Bound>>, path: string) {
    R.Taken(table, "OPTIONS", TemplateShape(path))
  }

  /** Exactly when the router can be built: no two templates of one shape share a verb, and
      each shape that needs a preflight route needs it under one spelling, unserved. */
  ghost predicate RouterBuilds(table: seq<R.Route<Bound>>, needs: set<string>) {
    && R.NoTwins(table)
    && (forall p, q {:trigger SameShape(p, q)} | p in needs && q in needs && SameShape(p, q) :: p == q)
    && (forall p {:trigger OptionsTaken(table, p)} | p in needs :: !OptionsTaken(table, p))
  }

  /** Each path's CORS middleware. */
  type CorsBy = string -> set<string>

  ghost predicate IsPreflight(cors: CorsBy, e: R.Route<Bound>) {
    e.verb == "OPTIONS" && e.payload.Preflight? && e.payload.path == e.template
      && Lists(e.payload.cors, cors(e.template))
  }

  predicate HasExtra(extra: seq<R.Route<Bound>>, path: string) {
    exists i :: 0 <= i < |extra| && extra[i].template == path
  }

  /** The synthetic routes: one for each path of `needs`, and nothing else. */
  ghost predicate PreflightsFor(needs: set<string>, cors: CorsBy, extra: seq<R.Route<Bound>>) {
    && (forall i | 0 <= i < |extra| :: IsPreflight(cors, extra[i]))
    && (forall path {:trigger HasExtra(extra, path)} :: HasExtra(extra, path) <==> path in needs)
  }

  lemma ExtraPush(needs: set<string>, cors: CorsBy, extra: seq<R.Route<Bound>>, p: string, names: seq<string>)
    requires PreflightsFor(needs, cors, extra) && Lists(names, cors(p))
    ensures PreflightsFor(needs + {p}, cors, extra + [R.Route("OPTIONS", p, Preflight(p, names))])
  {
    var more := extra + [R.Route("OPTIONS", p, Preflight(p, names))];
    forall path ensures HasExtra(more, path) <==> HasExtra(extra, path) || path == p {
      if HasExtra(extra, path) {
        var i :| 0 <= i < |extra| && extra[i].template == path;
        assert more[i].template == path;
      }
      assert more[|extra|].template == p;
    }
  }

  /** A refused preflight route meets a table route or another spelling of its shape. */
  lemma Refused(table: seq<R.Route<Bound>>, needs: set<string>, cors: CorsBy, seen: set<string>,
                extra: seq<R.Route<Bound>>, p: string)
    requires PreflightsFor(seen, cors, extra) && p in needs && seen <= needs && p !in seen
    requires R.Taken(table + extra, "OPTIONS", TemplateShape(p))
    ensures !RouterBuilds(table, needs)
  {
    var i := R.TakenInEither(table, extra, "OPTIONS", TemplateShape(p));
    if i < |table| {
      assert OptionsTaken(table, p);
    } else {
      var q := extra[i - |table|].template;
      assert HasExtra(extra, q) && SameShape(p, q);
    }
  }

  lemma Accepted(table: seq<R.Route<Bound>>, needs: set<string>, cors: CorsBy, extra: seq<R.Route<Bound>>)
    requires R.NoTwins(table + extra) && PreflightsFor(needs, cors, extra)
    ensures RouterBuilds(table, needs)
  {
    R.NoTwinsParts(table, extra);
    forall p, q | p in needs && q in needs && SameShape(p, q) ensures p == q {
      assert HasExtra(extra, p) && HasExtra(extra, q);
      var i :| 0 <= i < |extra| && extra[i].template == p;
      var j :| 0 <= j < |extra| && extra[j].template == q;
      assert IsPreflight(cors, extra[i]) && IsPreflight(cors, extra[j]);
      assert R.Claims(extra[i], extra[j].verb, R.RouteShape(extra[j]));
      assert R.Claims(extra[j], extra[i].verb, R.RouteShape(extra[i]));
    }
    forall p | p in needs ensures !OptionsTaken(table, p) {
      assert HasExtra(extra, p);
      var j :| 0 <= j < |extra| && extra[j].template == p;
      assert IsPreflight(cors, extra[j]);
      assert R.RouteShape(extra[j]) == TemplateShape(p);
    }
  }

  method AddTable(routes: seq<T.Route>) returns (router: R.Router<Bound>, conflict: Option<R.Conflict>)
    ensures router.Valid() && fresh(router) && fresh(router.Footprint())
    ensures conflict.None? ==> router.routes == TableEntries(routes)
    ensures conflict.Some? ==> !R.NoTwins(TableEntries(routes))
  {
    ghost var entries := TableEntries(routes);
    router := new R.Router();
    conflict := None;
    for i := 0 to |routes|
      invariant router.Valid() && fresh(router) && fresh(router.Footprint())
      invariant router.routes == entries[..i] && conflict == None
    {
      conflict := AddNext(router, routes[i], entries, i);
      if conflict.Some? {
        return;
      }
    }
    assert entries[..|routes|] == entries;
  }

  method AddNext(r: R.Router<Bound>, route: T.Route, ghost entries: seq<R.Route<Bound>>, ghost i: nat)
    returns (conflict: Option<R.Conflict>)
    requires r.Valid() && i < |entries| && entries[i] == TableEntry(route) && r.routes == entries[..i]
    modifies r, r.Footprint()
    ensures r.Valid() && fresh(r.Footprint() - old(r.Footprint()))
    ensures conflict.None? ==> r.routes == entries[..i + 1]
    ensures conflict.Some? ==> !R.NoTwins(entries)
  {
    conflict := AddRoute(r, route, entries[i]);
    if conflict.Some? {
      R.TwinsStay(entries, i);
      return;
    }
    C.OneMore(entries, i);
  }

  method AddRoute(r: R.Router<Bound>, route: T.Route, ghost e: R.Route<Bound>) returns (conflict: Option<R.Conflict>)
    requires r.Valid() && e == TableEntry(route)
    modifies r, r.Footprint()
    ensures r.Valid() && fresh(r.Footprint() - old(r.Footprint()))
    ensures conflict.None? <==> !R.Taken(old(r.routes), e.verb, R.RouteShape(e))
    ensures conflict.None? ==> r.routes == old(r.routes) + [e]
  {
    conflict := r.Add(route.verb, route.gatewayPath, Bound(route));
  }

  /** Every table route, then a preflight route for each path that needs one. */
  method BuildRouter(routes: seq<T.Route>, isCors: string -> bool)
    returns (router: R.Router<Bound>, ghost extra: seq<R.Route<Bound>>, conflict: Option<R.Conflict>)
    ensures router.Valid() && fresh(router) && fresh(router.Footprint())
    ensures conflict.None? <==> RouterBuilds(TableEntries(routes), Needing(routes, isCors))
    ensures conflict.None? ==> router.routes == TableEntries(routes) + extra
    ensures conflict.None? ==> PreflightsFor(Needing(routes, isCors), p => CorsNames(routes, isCors, p), extra)
  {
    extra := [];
    ghost var cors: CorsBy := p => CorsNames(routes, isCors, p);
    router, conflict := AddTable(routes);
    if conflict.Some? {
      return;
    }
    var byPath := CollectPaths(routes, isCors);
    var paths := SortedKeys(byPath);
    extra, conflict := AddPreflights(router, byPath, paths, isCors, cors, TableEntries(routes), Needing(routes, isCors),
                                     routes);
    if conflict.None? {
      Accepted(TableEntries(routes), Needing(routes, isCors), cors, extra);
    }
  }

  /** A route at the path that uses this CORS middleware. */
  predicate UsesCors(routes: seq<T.Route>, isCors: string -> bool, path: string, name: string) {
    isCors(name) && exists r :: r in routes && r.gatewayPath == path && name in r.middleware
  }

  /** The added routes: an OPTIONS route for each path that uses CORS and has none, with each CORS
      middleware the routes of that path use. */
  lemma PreflightsExactly(routes: seq<T.Route>, isCors: string -> bool, extra: seq<R.Route<Bound>>, path: string)
    requires PreflightsFor(Needing(routes, isCors), p => CorsNames(routes, isCors, p), extra)
    ensures (exists e :: e in extra && e.template == path) <==>
            (exists name :: UsesCors(routes, isCors, path, name))
            && forall r | r in routes && r.gatewayPath == path :: r.verb != "OPTIONS"
    ensures forall e | e in extra && e.template == path ::
              && e.verb == "OPTIONS" && e.payload.Preflight?
              && forall name :: name in e.payload.cors <==> UsesCors(routes, isCors, path, name)
  {
    forall name ensures name in CorsNames(routes, isCors, path) <==> UsesCors(routes, isCors, path, name) {
    }
    NeedingIs(routes, isCors, path);
    if HasExtra(extra, path) {
      var i :| 0 <= i < |extra| && extra[i].template == path;
      assert extra[i] in extra;
    }
    if e :| e in extra && e.template == path {
      var i :| 0 <= i < |extra| && extra[i] == e;
      assert HasExtra(extra, path);
    }
    assert T.HasRoute(routes, "OPTIONS", path) <==>
           !(forall r | r in routes && r.gatewayPath == path :: r.verb != "OPTIONS");
  }

  method AddOptions(r: R.Router<Bound>, p: string, cors: seq<string>) returns (conflict: Option<R.Conflict>)
    requires r.Valid()
    modifies r, r.Footprint()
    ensures r.Valid() && fresh(r.Footprint() - old(r.Footprint()))
    ensures conflict.None? <==> !OptionsTaken(old(r.routes), p)
    ensures conflict.None? ==> r.routes == old(r.routes) + [R.Route("OPTIONS", p, Preflight(p, cors))]
  {
    UpperOptions();
    conflict := r.Add("OPTIONS", p, Preflight(p, cors));
  }

  lemma UpperOptions()
    ensures ToUpper("OPTIONS") == "OPTIONS" && ToUpper("options") == "OPTIONS"
  {
  }

  /** One path: nothing unless it needs a preflight route. */
  method AddPreflight(r: R.Router<Bound>, p: string, info: PathInfo, ghost cors: CorsBy,
                      ghost table: seq<R.Route<Bound>>, ghost needs: set<string>, ghost seen: set<string>,
                      ghost extra: seq<R.Route<Bound>>)
    returns (ghost more: seq<R.Route<Bound>>, conflict: Option<R.Conflict>)
    requires r.Valid() && r.routes == table + extra && PreflightsFor(seen, cors, extra)
    requires seen <= needs && p !in seen && Lists(info.cors, cors(p))
    requires p in needs <==> info.cors != [] && "OPTIONS" !in info.methods
    modifies r, r.Footprint()
    ensures r.Valid() && fresh(r.Footprint() - old(r.Footprint()))
    ensures conflict.Some? ==> !RouterBuilds(table, needs)
    ensures conflict.None? ==> r.routes == table + more
    ensures conflict.None? ==> PreflightsFor(if p in needs then seen + {p} else seen, cors, more)
  {
    more, conflict := extra, None;
    if info.cors == [] || "OPTIONS" in info.methods {
      return;
    }
    conflict := AddOptions(r, p, info.cors);
    if conflict.Some? {
      Refused(table, needs, cors, seen, extra, p);
      return;
    }
    ExtraPush(seen, cors, extra, p, info.cors);
    more := extra + [R.Route("OPTIONS", p, Preflight(p, info.cors))];
  }

  /** The loop of `addPreflightRoutes`. */
  method AddPreflights(r: R.Router<Bound>, byPath: map<string, PathInfo>, paths: seq<string>, isCors: string -> bool,
                       ghost cors: CorsBy, ghost table: seq<R.Route<Bound>>, ghost needs: set<string>,
                       ghost routes: seq<T.Route>)
    returns (ghost extra: seq<R.Route<Bound>>, conflict: Option<R.Conflict>)
    requires r.Valid() && r.routes == table && needs == Needing(routes, isCors)
    requires ByPathRight(routes, isCors, byPath) && forall p :: cors(p) == CorsNames(routes, isCors, p)
    requires R.Ascending(paths) && forall p :: p in paths <==> p in byPath
    modifies r, r.Footprint()
    ensures r.Valid() && fresh(r.Footprint() - old(r.Footprint()))
    ensures conflict.Some? ==> !RouterBuilds(table, needs)
    ensures conflict.None? ==> r.routes == table + extra && PreflightsFor(needs, cors, extra)
  {
    extra, conflict := [], None;
    for i := 0 to |paths|
      invariant r.Valid() && fresh(r.Footprint() - old(r.Footprint())) && conflict == None
      invariant r.routes == table + extra && PreflightsFor(Seen(paths[..i], needs), cors, extra)
    {
      var p := paths[i];
      SeenPush(paths, i, needs);
      PathInfoRight(routes, isCors, byPath, p);
      extra, conflict := AddPreflight(r, p, byPath[p], cors, table, needs, Seen(paths[..i], needs), extra);
      if conflict.Some? {
        return;
      }
    }
    assert paths[..|paths|] == paths;
    NeedsListed(routes, isCors, byPath);
    assert Seen(paths, needs) == needs;
  }

  /** The paths dealt with that needed a preflight route. */
  function Seen(paths: seq<string>, needs: set<string>): set<string> {
    set p | p in paths && p in needs
  }

  lemma SeenPush(paths: seq<string>, i: nat, needs: set<string>)
    requires R.Ascending(paths) && i < |paths|
    ensures paths[i] in paths && paths[i] !in Seen(paths[..i], needs) && Seen(paths[..i], needs) <= needs
    ensures Seen(paths[..i + 1], needs)
         == if paths[i] in needs then Seen(paths[..i], needs) + {paths[i]} else Seen(paths[..i], needs)
  {
    NotSeen(paths, i);
    C.OneMore(paths, i);
    assert forall p :: p in paths[..i + 1] <==> p in paths[..i] || p == paths[i];
  }

  lemma NotSeen(paths: seq<string>, i: nat)
    requires R.Ascending(paths) && i < |paths|
    ensures paths[i] !in paths[..i]
  {
  }

  lemma PathInfoRight(routes: seq<T.Route>, isCors: string -> bool, byPath: map<string, PathInfo>, p: string)
    requires ByPathRight(routes, isCors, byPath) && p in byPath
    ensures Lists(byPath[p].cors, CorsNames(routes, isCors, p))
    ensures p in Needing(routes, isCors) <==> byPath[p].cors != [] && "OPTIONS" !in byPath[p].methods
  {
    assert InfoRight(routes, isCors, p, byPath[p]);
    EmptyLists(byPath[p].cors, CorsNames(routes, isCors, p));
    assert "OPTIONS" in byPath[p].methods <==> T.HasRoute(routes, "OPTIONS", p);
    NeedingIs(routes, isCors, p);
  }

  lemma EmptyLists(names: seq<string>, all: set<string>)
    requires Lists(names, all)
    ensures names == [] <==> all == {}
  {
    assert names != [] ==> names[0] in names;
  }

  lemma NeedsListed(routes: seq<T.Route>, isCors: string -> bool, byPath: map<string, PathInfo>)
    requires ByPathRight(routes, isCors, byPath)
    ensures forall p | p in Needing(routes, isCors) :: p in byPath
  {
  }

  // ---- published equals served minus hidden ----

  /** The table's own entries keep their verbs: loading gave upper-case ones. */
  lemma EntryOf(specs: M.Specs, routes: seq<T.Route>, k: nat)
    requires T.RoutesLoaded(specs, routes) && k < |routes|
    ensures TableEntries(routes)[k] == R.Route(routes[k].verb, routes[k].gatewayPath, Bound(routes[k]))
  {
    assert T.RouteLoaded(specs, routes[k]);
  }

  /** Every route of the table, hidden or not, answers its own template. */
  lemma TableIsServed(cfg: T.Config, specs: M.Specs, t: T.Table, names: O.Names, extra: seq<R.Route<Bound>>,
                      k: nat, path: string, a: R.Answer<Bound>)
    requires T.ConfigLoaded(cfg, specs) && T.TableRight(cfg, specs, t, names) && k < |t.routes|
    requires R.NoTwins(TableEntries(t.routes) + extra)
    requires Fits(TemplateShape(t.routes[k].gatewayPath), SplitPath(path))
    requires R.Clear(TableEntries(t.routes) + extra, TemplateShape(t.routes[k].gatewayPath), SplitPath(path))
    requires R.Matches(TableEntries(t.routes) + extra, t.routes[k].verb, SplitPath(path), a)
    ensures a.found && a.payload == Some(Bound(t.routes[k]))
  {
    var all := TableEntries(t.routes) + extra;
    EntryOf(specs, t.routes, k);
    assert all[k] == TableEntries(t.routes)[k];
    R.RouteIsServed(all, k, SplitPath(path), a);
  }

  /** The table route behind a match: the answer came from it, so the captures fit it. */
  lemma AnsweredBy(routes: seq<T.Route>, extra: seq<R.Route<Bound>>, verb: string, segs: seq<string>,
                   a: R.Answer<Bound>)
    returns (k: nat)
    requires R.Matches(TableEntries(routes) + extra, verb, segs, a) && a.found && a.payload.value.Bound?
    requires forall e | e in extra :: e.payload.Preflight?
    ensures k < |routes| && a.payload == Some(Bound(routes[k]))
    ensures Fits(R.RouteShape(TableEntry(routes[k])), segs) && R.AnswersFrom(TableEntry(routes[k]), segs, a)
  {
    var all := TableEntries(routes) + extra;
    assert forall j | |routes| <= j < |all| :: all[j] in extra;
    var shape :| R.MatchesAt(all, verb, segs, a, shape);
    var v := R.DecidingVerb(all, verb, shape);
    var i :| 0 <= i < |all| && R.Claims(all[i], v, shape) && R.AnswersFrom(all[i], segs, a);
    k := i;
  }

  /** From a request to what is sent upstream: match, then substitute. A route is forwarded to
      exactly when the match finds one that is not a preflight, and then every segment of its
      upstream template is carried, parameters with what the request had in their place. */
  method Forward(router: R.Router<Bound>, verb: string, escapedPath: string,
                 ghost routes: seq<T.Route>, ghost extra: seq<R.Route<Bound>>)
    returns (sent: Option<(T.Route, string)>)
    requires router.Valid() && router.routes == TableEntries(routes) + extra
    requires forall e | e in extra :: e.payload.Preflight?
    requires forall r {:trigger T.ParamsAgree(r)} | r in routes :: T.ParamsAgree(r)
    requires Escaping.IsBytes(escapedPath)
    ensures exists a :: R.Matches(router.routes, ToUpper(verb), SplitPath(escapedPath), a) && Forwards(a, sent)
    ensures sent.Some? ==> sent.value.0 in routes
    ensures sent.Some? && sent.value.0.upstreamPath != "" ==>
      S.Carried(sent.value.0.upstreamPath, sent.value.0.gatewayPath, SplitPath(escapedPath), sent.value.1)
  {
    var a := router.Match(verb, escapedPath);
    if !a.found || a.payload.value.Preflight? {
      assert Forwards(a, None);
      return None;
    }
    var route := a.payload.value.route;
    ghost var k := AnsweredBy(routes, extra, ToUpper(verb), SplitPath(escapedPath), a);
    ghost var e := TableEntry(routes[k]);
    S.MatchedParamsFit(e, escapedPath, a);
    var out := S.UpstreamPath(route.upstreamPath, a.params);
    sent := Some((route, out));
    assert Forwards(a, sent);
    if route.upstreamPath != "" {
      assert T.ParamsAgree(routes[k]);
      S.MatchThenSubstitute(e, escapedPath, a, route.upstreamPath, out);
    }
  }

  /** So with a built table what goes out is carried from the path the backend's own document
      gives the operation: below whatever prefix the request came in, under whatever path an
      override put it. */
  lemma SentFromOperation(cfg: T.Config, specs: M.Specs, t: T.Table, names: O.Names, route: T.Route,
                          segs: seq<string>, out: string)
    returns (e: T.Expose, b: T.Backend, op: Operations.Operation)
    requires T.ConfigLoaded(cfg, specs) && T.TableRight(cfg, specs, t, names) && route in t.routes
    requires S.Carried(route.upstreamPath, route.gatewayPath, segs, out)
    ensures T.Comes(cfg, e, b, op, route) && S.Carried(op.path, route.gatewayPath, segs, out)
  {
    e, b, op := T.RouteComes(cfg, specs, t, names, route);
  }

  /** A match and what became of it. */
  predicate Forwards(a: R.Answer<Bound>, sent: Option<(T.Route, string)>) {
    if a.found && a.payload.Some? && a.payload.value.Bound?
    then sent.Some? && sent.value.0 == a.payload.value.route
    else sent.None?
  }

  lemma ServesOptions(specs: M.Specs, r: T.Route, path: string)
    requires T.RouteLoaded(specs, r) && T.SlotOf(r) == C.Slot(path, "options")
    ensures r.verb == "OPTIONS" && r.gatewayPath == path
  {
    LowerOfUpper(r.verb);
    UpperOptions();
  }

  /** A preflight route is served and never published. */
  lemma PreflightsUnpublished(specs: M.Specs, routes: seq<T.Route>, doc: O.Document, isCors: string -> bool,
                              path: string)
    requires T.RoutesLoaded(specs, routes) && T.PublishedMinusHidden(routes, doc)
    requires path in Needing(routes, isCors)
    ensures C.Slot(path, "options") !in doc.operations
  {
    NeedingIs(routes, isCors, path);
    var slot := C.Slot(path, "options");
    forall r | r in routes ensures T.SlotOf(r) != slot {
      assert T.RouteLoaded(specs, r);
      if T.SlotOf(r) == slot {
        ServesOptions(specs, r, path);
      }
    }
  }
}
