/** A table the router turns down: two spellings of one path shape that both need a preflight
    route. */
module ServingLimits {
  import opened Wrappers
  import opened Text
  import opened Paths
  import opened Serving
  import Nodes
  import Operations
  import R = Router
  import T = RouteTable
  import C = Copying
  import O = Documents
  import M = Merger
  import L = MergeLimits

  // ---- one shape, two spellings ----

  function ParamTemplate(literal: string, name: string): string {
    "/" + literal + "/{" + name + "}"
  }

  lemma TrimLeading(t: string)
    requires t != "" && t[0] != '/' && t[|t| - 1] != '/'
    ensures TrimSlashes("/" + t) == t
  {
    assert ("/" + t)[1..] == t;
  }

  lemma TwoPieces(a: string, b: string)
    requires '/' !in a && '/' !in b
    ensures Split(a + "/" + b) == [a, b]
  {
    assert [a, b][1..] == [b] && Join([b]) == b && Join([a, b]) == a + "/" + b;
    SplitJoin([a, b]);
  }

  lemma TemplateText(literal: string, name: string)
    ensures ParamTemplate(literal, name) == "/" + (literal + "/" + Braced(name))
  {
  }

  function Braced(name: string): string {
    "{" + name + "}"
  }

  lemma BracedIsParam(name: string)
    ensures IsParam(Braced(name)) && Braced(name)[|Braced(name)| - 1] != '/'
    ensures '/' !in name ==> '/' !in Braced(name)
  {
  }

  lemma TrimPieces(a: string, b: string)
    requires a != "" && b != "" && '/' !in a && '/' !in b
    ensures TrimSlashes("/" + (a + "/" + b)) == a + "/" + b != ""
  {
    var t := a + "/" + b;
    assert t[0] == a[0] && a[0] in a && t[|t| - 1] == b[|b| - 1] && b[|b| - 1] in b;
    TrimLeading(t);
  }

  lemma ShapeOfPieces(path: string, t: string, a: string, b: string)
    requires TrimSlashes(path) == t != "" && Split(t) == [a, b]
    ensures TemplateShape(path) == [SegOf(a), SegOf(b)]
  {
  }

  lemma ParamTemplateShape(literal: string, name: string)
    requires literal != "" && '/' !in literal && !IsParam(literal) && '/' !in name
    ensures TemplateShape(ParamTemplate(literal, name)) == [Lit(literal), Par]
  {
    TemplateText(literal, name);
    BracedIsParam(name);
    TrimPieces(literal, Braced(name));
    TwoPieces(literal, Braced(name));
    ShapeOfPieces(ParamTemplate(literal, name), literal + "/" + Braced(name), literal, Braced(name));
  }

  /** Two routes of one shape whose parameters differ in name, both using CORS, neither of them
      OPTIONS. */
  predicate TwoSpellings(a: T.Route, b: T.Route, isCors: string -> bool, literal: string, m: string, n: string) {
    && literal != "" && '/' !in literal && !IsParam(literal) && '/' !in m && '/' !in n && m != n
    && a.gatewayPath == ParamTemplate(literal, m) && b.gatewayPath == ParamTemplate(literal, n)
    && ToUpper(a.verb) != ToUpper(b.verb) && a.verb != "OPTIONS" && b.verb != "OPTIONS"
    && (exists name :: name in a.middleware && isCors(name)) && (exists name :: name in b.middleware && isCors(name))
  }

  lemma SpellingsDiffer(literal: string, m: string, n: string)
    requires m != n
    ensures ParamTemplate(literal, m) != ParamTemplate(literal, n)
  {
    var p := "/" + literal + "/{";
    assert ParamTemplate(literal, m) == p + (m + "}") && ParamTemplate(literal, n) == p + (n + "}");
    assert (p + (m + "}"))[|p|..] == m + "}" && (p + (n + "}"))[|p|..] == n + "}";
    assert (m + "}")[..|m|] == m && (n + "}")[..|n|] == n;
  }

  lemma CorsNeeds(routes: seq<T.Route>, isCors: string -> bool, r: T.Route, name: string)
    requires r in routes && name in r.middleware && isCors(name)
    requires forall x | x in routes && x.gatewayPath == r.gatewayPath :: x.verb != "OPTIONS"
    ensures r.gatewayPath in Needing(routes, isCors)
  {
    assert name in CorsNames(routes, isCors, r.gatewayPath);
    NeedingIs(routes, isCors, r.gatewayPath);
  }

  /** No router can be built for such a table: each spelling needs a preflight route and the two
      have one shape. */
  lemma TwoSpellingsRefused(routes: seq<T.Route>, a: T.Route, b: T.Route, isCors: string -> bool,
                            literal: string, m: string, n: string)
    requires TwoSpellings(a, b, isCors, literal, m, n) && a in routes && b in routes
    requires forall x | x in routes && x.gatewayPath in {a.gatewayPath, b.gatewayPath} :: x.verb != "OPTIONS"
    ensures !RouterBuilds(TableEntries(routes), Needing(routes, isCors))
  {
    var s :| s in a.middleware && isCors(s);
    var t :| t in b.middleware && isCors(t);
    CorsNeeds(routes, isCors, a, s);
    CorsNeeds(routes, isCors, b, t);
    ParamTemplateShape(literal, m);
    ParamTemplateShape(literal, n);
    SpellingsDiffer(literal, m, n);
    assert SameShape(a.gatewayPath, b.gatewayPath);
  }

  /** Though two routes of different verbs never clash. */
  lemma TwoVerbs(routes: seq<T.Route>, a: T.Route, b: T.Route)
    requires multiset(routes) == multiset([a, b]) && ToUpper(a.verb) != ToUpper(b.verb)
    ensures a in routes && b in routes && R.NoTwins(TableEntries(routes))
    ensures forall x | x in routes :: x == a || x == b
  {
    assert multiset([a, b])[a] == 1 && multiset([a, b])[b] == 1;
    forall x | x in routes ensures x == a || x == b {
      assert x in multiset(routes);
    }
    assert a in multiset(routes) && b in multiset(routes);
    assert |multiset(routes)| == 2;
    TwoOnce(routes, a, b);
  }

  lemma TwoOnce(routes: seq<T.Route>, a: T.Route, b: T.Route)
    requires |routes| == 2 && a in routes && b in routes && a != b
    ensures routes == [a, b] || routes == [b, a]
  {
  }

  // ---- GET /enums/{id} and POST /enums/{pk} ----

  function EnumOp(verb: string, name: string, id: string): Operations.Operation {
    Operations.Operation(ParamTemplate("enums", name), verb, id, [], Nodes.Mapping([]), None)
  }

  const ENUM_OPS := [EnumOp("GET", "id", "readEnum"), EnumOp("POST", "pk", "addEnum")]

  const ENUM_BACKEND := T.Backend("enums", "Enums", "")

  const ENUM_EXPOSE := T.Expose("enums", "", (id: string) => Some(true), map[], ["cors"])

  /** One backend, all of it exposed as it is, with CORS. */
  const ENUM_CONFIG :=
    T.Config([ENUM_BACKEND], [ENUM_EXPOSE], map["enums" := T.LoadedSpec(0, ENUM_OPS)], [], O.Options(false, map[]))

  const ENUM_SPECS: M.Specs := map[0 := map[]]

  function EnumRoute(i: nat): T.Route
    requires i < |ENUM_OPS|
  {
    T.RouteOf(ENUM_CONFIG, ENUM_EXPOSE, ENUM_BACKEND, 0, ENUM_OPS[i])
  }

  lemma VerbsListed()
    ensures ToUpper("GET") == "GET" && ToUpper("POST") == "POST"
    ensures ToLower("GET") == "get" && ToLower("POST") == "post"
  {
    assert ToUpper("GET")[0] == 'G' && ToUpper("POST")[0] == 'P';
    assert ToLower("GET")[0] == 'g' && ToLower("POST")[0] == 'p';
  }

  lemma EnumsLoaded()
    ensures T.ConfigLoaded(ENUM_CONFIG, ENUM_SPECS)
  {
    VerbsListed();
    forall op | op in ENUM_OPS ensures T.OpLoaded(ENUM_SPECS, 0, op) {
      assert op == ENUM_OPS[0] || op == ENUM_OPS[1];
    }
  }

  lemma BothSelected(cfg: T.Config, e: T.Expose, b: T.Backend, spec: Operations.SpecId,
                     x: Operations.Operation, y: Operations.Operation)
    requires T.Serves(e, x) && T.Serves(e, y)
    ensures T.Selected(cfg, e, b, spec, [x, y]) == [T.RouteOf(cfg, e, b, spec, x), T.RouteOf(cfg, e, b, spec, y)]
  {
    assert [x, y][..1] == [x] && [x][..0] == [];
    assert T.Selected(cfg, e, b, spec, [x]) == [T.RouteOf(cfg, e, b, spec, x)];
  }

  lemma OneExpose(cfg: T.Config, e: T.Expose)
    ensures T.AllRoutes(cfg, [e]) == T.RoutesFrom(cfg, e)
    ensures T.AllResolved(cfg, [e]) <==> T.Resolved(cfg, e)
  {
    assert [e][..0] == [];
  }

  lemma EnumRoutes()
    ensures T.AllRoutes(ENUM_CONFIG, ENUM_CONFIG.exposes) == [EnumRoute(0), EnumRoute(1)]
    ensures T.AllResolved(ENUM_CONFIG, ENUM_CONFIG.exposes)
  {
    OneExpose(ENUM_CONFIG, ENUM_EXPOSE);
    BothSelected(ENUM_CONFIG, ENUM_EXPOSE, ENUM_BACKEND, 0, ENUM_OPS[0], ENUM_OPS[1]);
    assert T.BackendByName(ENUM_CONFIG.backends, "enums") == Some(ENUM_BACKEND);
    assert T.RoutesFrom(ENUM_CONFIG, ENUM_EXPOSE) == [EnumRoute(0), EnumRoute(1)];
  }

  lemma MountedAtRoot(e: T.Expose, b: T.Backend, op: Operations.Operation)
    requires e.overrides == map[] && e.prefix == "" && b.stripPrefix == ""
    requires |op.path| > 1 && op.path[0] == '/'
    ensures T.GatewayPath(e, b, op) == op.path
  {
    assert "" + op.path == op.path && op.path[..1] == "/";
  }

  lemma TemplateBegins(literal: string, name: string)
    ensures |ParamTemplate(literal, name)| > 1 && ParamTemplate(literal, name)[0] == '/'
  {
  }

  lemma EnumPath(i: nat)
    requires i < |ENUM_OPS|
    ensures EnumRoute(i).gatewayPath == ENUM_OPS[i].path == EnumRoute(i).upstreamPath
  {
    TemplateBegins("enums", "id");
    TemplateBegins("enums", "pk");
    MountedAtRoot(ENUM_EXPOSE, ENUM_BACKEND, ENUM_OPS[i]);
  }

  lemma EnumRefs(i: nat)
    requires i < |ENUM_OPS|
    ensures Operations.WellFormedOp(ENUM_OPS[i].node) && Nodes.Refs(Operations.Prepared(EnumRoute(i).exposed)) == []
  {
    var e, n := EnumRoute(i).exposed, Nodes.Mapping([]);
    L.StampsDiffer();
    forall r ensures r !in Nodes.Refs(Operations.Prepared(e)) {
      L.SetTwice(n, "operationId", e.operationId, "x-nina-backend", e.source.backend, r);
      var one := Nodes.MapSet(n, "operationId", Nodes.Str(e.operationId));
      var two := Nodes.MapSet(one, "x-nina-backend", Nodes.Str(e.source.backend));
      L.SetTwice(two, "x-nina-upstream-path", e.op.path, "x-nina-upstream-operation-id", e.op.operationId, r);
    }
    L.NoRefs(Operations.Prepared(e));
  }

  lemma NothingToImport(specs: M.Specs, jobs: seq<C.Job>)
    requires C.Distinct(jobs)
    requires forall j | j in jobs :: C.Buildable(specs, j) && Nodes.Refs(j.node) == []
    ensures C.Mergeable(specs, jobs)
  {
    forall i | 0 <= i < |jobs| ensures C.Buildable(specs, jobs[i]) && M.Targets(jobs[i].spec, jobs[i].node) == {} {
      assert jobs[i] in jobs;
    }
    forall k ensures k !in C.Roots(jobs) {
      if k in C.Roots(jobs) {
        var i := C.RootFrom(jobs, k);
      }
    }
  }

  lemma EnumsExposed()
    ensures T.RoutesLoaded(ENUM_SPECS, [EnumRoute(0), EnumRoute(1)])
    ensures T.Exposed([EnumRoute(0), EnumRoute(1)]) == [EnumRoute(0).exposed, EnumRoute(1).exposed]
  {
    EnumsLoaded();
    EnumRoutes();
    T.AllRoutesLoaded(ENUM_CONFIG, ENUM_SPECS, ENUM_CONFIG.exposes);
    T.ExposedPush([EnumRoute(0)], EnumRoute(1));
    T.ExposedPush([], EnumRoute(0));
    assert [] + [EnumRoute(0)] == [EnumRoute(0)] && [EnumRoute(0)] + [EnumRoute(1)] == [EnumRoute(0), EnumRoute(1)];
  }

  /** Nothing of this operation is in the way of a merge. */
  predicate Lone(specs: M.Specs, e: Operations.ExposedOp) {
    Operations.WellFormedOp(e.op.node) && C.Buildable(specs, C.JobOf(e)) && Nodes.Refs(C.JobOf(e).node) == []
  }

  lemma EnumJob(i: nat)
    requires i < |ENUM_OPS|
    ensures Lone(ENUM_SPECS, EnumRoute(i).exposed)
  {
    EnumRefs(i);
  }

  lemma PairMerges(specs: M.Specs, routes: seq<T.Route>, a: Operations.ExposedOp, b: Operations.ExposedOp)
    requires T.RoutesLoaded(specs, routes) && T.SlotsApart(routes) && T.Exposed(routes) == [a, b]
    requires Lone(specs, a) && Lone(specs, b)
    ensures T.ExposedMergeable(specs, routes)
  {
    T.ExposedApart(specs, routes);
    assert T.ExposedJobs(specs, routes) == [C.JobOf(a), C.JobOf(b)];
    NothingToImport(specs, T.ExposedJobs(specs, routes));
  }

  lemma EnumsMerge()
    ensures T.RoutesLoaded(ENUM_SPECS, [EnumRoute(0), EnumRoute(1)])
    ensures T.ExposedMergeable(ENUM_SPECS, [EnumRoute(0), EnumRoute(1)])
  {
    EnumsExposed();
    EnumsApart();
    EnumJob(0);
    EnumJob(1);
    PairMerges(ENUM_SPECS, [EnumRoute(0), EnumRoute(1)], EnumRoute(0).exposed, EnumRoute(1).exposed);
  }

  lemma EnumsApart()
    ensures EnumRoute(0).verb == "GET" && EnumRoute(1).verb == "POST" && ToUpper("GET") != ToUpper("POST")
    ensures T.SlotsApart([EnumRoute(0), EnumRoute(1)])
  {
    VerbsListed();
    assert |"GET"| < |"POST"|;
  }

  /** The table builds, paths, slots, merge and all. */
  lemma EnumsBuild()
    ensures T.ConfigLoaded(ENUM_CONFIG, ENUM_SPECS) && T.Builds(ENUM_CONFIG, ENUM_SPECS)
  {
    EnumsLoaded();
    EnumRoutes();
    EnumsMerge();
    EnumsApart();
    EnumPath(0);
    EnumPath(1);
  }

  lemma EnumsSpelledTwice(isCors: string -> bool)
    requires isCors("cors")
    ensures TwoSpellings(EnumRoute(0), EnumRoute(1), isCors, "enums", "id", "pk")
  {
    var a, b := EnumRoute(0), EnumRoute(1);
    EnumPath(0);
    EnumPath(1);
    EnumsApart();
    assert "cors" in a.middleware && "cors" in b.middleware;
    assert |"GET"| < |"POST"| < |"OPTIONS"|;
    assert "id"[0] != "pk"[0] && "enums"[0] != '{';
  }

  /** The configuration is accepted and its routes do not clash; whatever table comes of it,
      no router can be built for it. */
  lemma EnumsRefused(isCors: string -> bool, t: T.Table, names: O.Names)
    requires isCors("cors")
    ensures T.ConfigLoaded(ENUM_CONFIG, ENUM_SPECS) && T.Builds(ENUM_CONFIG, ENUM_SPECS)
    ensures T.TableRight(ENUM_CONFIG, ENUM_SPECS, t, names) ==>
            R.NoTwins(TableEntries(t.routes)) && !RouterBuilds(TableEntries(t.routes), Needing(t.routes, isCors))
  {
    EnumsBuild();
    EnumRoutes();
    if T.TableRight(ENUM_CONFIG, ENUM_SPECS, t, names) {
      EnumsRefusedIn(isCors, t.routes);
    }
  }

  lemma EnumsRefusedIn(isCors: string -> bool, routes: seq<T.Route>)
    requires isCors("cors") && multiset(routes) == multiset([EnumRoute(0), EnumRoute(1)])
    ensures R.NoTwins(TableEntries(routes)) && !RouterBuilds(TableEntries(routes), Needing(routes, isCors))
  {
    EnumsApart();
    TwoVerbs(routes, EnumRoute(0), EnumRoute(1));
    EnumsSpelledTwice(isCors);
    TwoSpellingsRefused(routes, EnumRoute(0), EnumRoute(1), isCors, "enums", "id", "pk");
  }
}
