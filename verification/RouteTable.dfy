/** The route table: configuration and loaded specs resolved once, from which both the
    router and the published document are derived. */
module RouteTable {
  import opened Wrappers
  import opened Text
  import opened Operations
  import A = Arrange
  import R = Router
  import S = Substitute
  import M = Merger
  import C = Copying
  import O = Documents
  import G = Merge

  datatype Backend = Backend(name: string, namespace: string, stripPrefix: string)

  datatype Override = Override(disabled: bool, path: string, middleware: Option<seq<string>>)

  /** `chosen` stands for the include and exclude globs: no answer is a bad pattern. */
  datatype Expose = Expose(backend: string, prefix: string, chosen: string -> Option<bool>,
                           overrides: map<string, Override>, middleware: seq<string>)

  datatype LoadedSpec = LoadedSpec(id: SpecId, ops: seq<Operation>)

  datatype Config = Config(backends: seq<Backend>, exposes: seq<Expose>, specs: map<string, LoadedSpec>,
                           hideTags: seq<string>, publish: O.Options)

  datatype Route = Route(verb: string, gatewayPath: string, backend: string, upstreamPath: string,
                         upstreamId: string, middleware: seq<string>, hidden: bool, exposed: ExposedOp)

  datatype Table = Table(routes: seq<Route>, allowed: map<string, seq<string>>, doc: O.Document)

  datatype BuildError =
    | NoBackend(expose: nat)
    | NoSpec(expose: nat)
    | BadPattern(expose: nat)
    | NothingSelected(expose: nat)
    | MissingParam(route: Route, name: string)
    | SlotTaken(verb: string, path: string, first: string, second: string)
    | MergeFailed(error: M.Error)

  // ---- paths ----

  function TrimSuffix(s: string): string {
    if s != "" && s[|s| - 1] == '/' then s[..|s| - 1] else s
  }

  function StripPrefix(p: string, strip: string): string {
    if strip == "" || strip == "/" then p
    else
      var prefix := TrimSuffix(strip);
      if p == prefix then "/"
      else if HasPrefix(p, prefix + "/") then p[|prefix|..]
      else p
  }

  function JoinPath(mount: string, p: string): string {
    var prefix := TrimSuffix(mount);
    if p == "" || p == "/" then (if prefix == "" then "/" else prefix)
    else prefix + (if HasPrefix(p, "/") then p else "/" + p)
  }

  lemma ParamsOfJoined(a: string, b: string)
    ensures S.TemplateParams(a + "/" + b) == S.TemplateParams(a) + S.TemplateParams(b)
  {
    S.SplitConcat(a, b);
  }

  /** Mounting a path elsewhere can lose only the parameters of the prefix it strips. */
  lemma MountKeepsParams(mount: string, p: string, strip: string)
    ensures S.TemplateParams(p) <= S.TemplateParams(JoinPath(mount, StripPrefix(p, strip)))
            + S.TemplateParams(TrimSuffix(strip))
  {
    var moved, prefix, pre := StripPrefix(p, strip), TrimSuffix(strip), TrimSuffix(mount);
    if moved != p && p != prefix {
      assert p == prefix + "/" + p[|prefix| + 1..];
      ParamsOfJoined(prefix, p[|prefix| + 1..]);
      assert moved == "" + "/" + p[|prefix| + 1..];
      ParamsOfJoined("", p[|prefix| + 1..]);
    }
    assert S.TemplateParams(p) <= S.TemplateParams(moved) + S.TemplateParams(prefix);
    if moved == "" || moved == "/" {
      ParamsOfJoined("", "");
      assert "" + "/" + "" == "/";
    } else if HasPrefix(moved, "/") {
      assert moved == "" + "/" + moved[1..] && pre + moved == pre + "/" + moved[1..];
      ParamsOfJoined("", moved[1..]);
      ParamsOfJoined(pre, moved[1..]);
    } else {
      assert pre + ("/" + moved) == pre + "/" + moved;
      ParamsOfJoined(pre, moved);
    }
  }

  // ---- from one operation to its route ----

  function BackendByName(backends: seq<Backend>, name: string): (b: Option<Backend>)
    ensures b.Some? ==> b.value in backends && b.value.name == name
    ensures b.None? ==> forall x | x in backends :: x.name != name
  {
    if backends == [] then None
    else if backends[0].name == name then Some(backends[0])
    else BackendByName(backends[1..], name)
  }

  predicate Hidden(hideTags: seq<string>, tags: seq<string>) {
    exists t :: t in tags && t in hideTags
  }

  function Sanitise(s: string): string {
    seq(|s|, i requires 0 <= i < |s| =>
      if 'a' <= s[i] <= 'z' || 'A' <= s[i] <= 'Z' || '0' <= s[i] <= '9' then s[i] else '_')
  }

  predicate Disabled(e: Expose, op: Operation) {
    op.operationId in e.overrides && e.overrides[op.operationId].disabled
  }

  predicate Serves(e: Expose, op: Operation) {
    e.chosen(op.operationId) == Some(true) && !Disabled(e, op)
  }

  function GatewayPath(e: Expose, b: Backend, op: Operation): string {
    var own := if op.operationId in e.overrides then e.overrides[op.operationId].path else "";
    if own != "" then own else JoinPath(e.prefix, StripPrefix(op.path, b.stripPrefix))
  }

  function MiddlewareOf(e: Expose, op: Operation): seq<string> {
    if op.operationId in e.overrides && e.overrides[op.operationId].middleware.Some?
    then e.overrides[op.operationId].middleware.value else e.middleware
  }

  function RouteOf(cfg: Config, e: Expose, b: Backend, spec: SpecId, op: Operation): Route {
    Route(op.verb, GatewayPath(e, b, op), b.name, op.path, op.operationId, MiddlewareOf(e, op),
          Hidden(cfg.hideTags, op.tags),
          ExposedOp(Source(spec, b.name, b.namespace), op, GatewayPath(e, b, op),
                    Sanitise(b.name) + "_" + op.operationId))
  }

  // ---- the routes a configuration stands for ----

  function Selected(cfg: Config, e: Expose, b: Backend, spec: SpecId, ops: seq<Operation>): seq<Route> {
    if ops == [] then [] else
      Selected(cfg, e, b, spec, ops[..|ops| - 1])
      + if Serves(e, ops[|ops| - 1]) then [RouteOf(cfg, e, b, spec, ops[|ops| - 1])] else []
  }

  predicate Resolved(cfg: Config, e: Expose) {
    && BackendByName(cfg.backends, e.backend).Some? && e.backend in cfg.specs
    && AllAnswer(e, cfg.specs[e.backend].ops, |cfg.specs[e.backend].ops|)
    && RoutesFrom(cfg, e) != []
  }

  /** The globs are well-formed as far as this operation needs them. */
  predicate Answers(e: Expose, ops: seq<Operation>, k: int)
    requires 0 <= k < |ops|
  {
    e.chosen(ops[k].operationId).Some?
  }

  predicate AllResolved(cfg: Config, exposes: seq<Expose>) {
    exposes == [] || (AllResolved(cfg, exposes[..|exposes| - 1]) && Resolved(cfg, exposes[|exposes| - 1]))
  }

  function RoutesFrom(cfg: Config, e: Expose): seq<Route> {
    var b := BackendByName(cfg.backends, e.backend);
    if b.None? || e.backend !in cfg.specs then []
    else Selected(cfg, e, b.value, cfg.specs[e.backend].id, cfg.specs[e.backend].ops)
  }

  function AllRoutes(cfg: Config, exposes: seq<Expose>): seq<Route> {
    if exposes == [] then []
    else AllRoutes(cfg, exposes[..|exposes| - 1]) + RoutesFrom(cfg, exposes[|exposes| - 1])
  }

  /** What reaches the merger. */
  function Exposed(routes: seq<Route>): seq<ExposedOp> {
    if routes == [] then []
    else Exposed(routes[..|routes| - 1]) + if routes[|routes| - 1].hidden then [] else [routes[|routes| - 1].exposed]
  }

  lemma ExposedPush(routes: seq<Route>, r: Route)
    ensures Exposed(routes + [r]) == Exposed(routes) + if r.hidden then [] else [r.exposed]
  {
    assert (routes + [r])[..|routes|] == routes;
  }

  lemma {:induction false} ExposedHas(routes: seq<Route>, e: ExposedOp)
    ensures e in Exposed(routes) <==> exists r :: r in routes && !r.hidden && r.exposed == e
  {
    if routes != [] {
      var init, last := routes[..|routes| - 1], routes[|routes| - 1];
      assert routes == init + [last];
      ExposedHas(init, e);
    }
  }

  predicate ParamsAgree(r: Route) {
    S.TemplateParams(r.upstreamPath) <= S.TemplateParams(r.gatewayPath)
  }

  predicate SlotsApart(routes: seq<Route>) {
    forall i, j | 0 <= i < j < |routes| ::
      routes[i].verb != routes[j].verb || routes[i].gatewayPath != routes[j].gatewayPath
  }

  /** What loading a spec guarantees of its operations. */
  predicate OpLoaded(specs: M.Specs, spec: SpecId, op: Operation) {
    && spec in specs && WellFormedOp(op.node)
    && ToLower(op.verb) in C.HTTP_METHODS && ToUpper(op.verb) == op.verb
  }

  predicate ConfigLoaded(cfg: Config, specs: M.Specs) {
    forall name | name in cfg.specs ::
      forall op | op in cfg.specs[name].ops :: OpLoaded(specs, cfg.specs[name].id, op)
  }

  predicate RouteLoaded(specs: M.Specs, r: Route) {
    && OpLoaded(specs, r.exposed.source.spec, r.exposed.op)
    && r.verb == r.exposed.op.verb && r.gatewayPath == r.exposed.gatewayPath
  }

  predicate RoutesLoaded(specs: M.Specs, routes: seq<Route>) {
    forall r {:trigger RouteLoaded(specs, r)} | r in routes :: RouteLoaded(specs, r)
  }

  lemma ExposedLoaded(specs: M.Specs, routes: seq<Route>)
    requires RoutesLoaded(specs, routes)
    ensures C.AllLoaded(specs, Exposed(routes))
  {
    forall i | 0 <= i < |Exposed(routes)| ensures C.Loaded(specs, Exposed(routes)[i]) {
      ExposedHas(routes, Exposed(routes)[i]);
      var r :| r in routes && !r.hidden && r.exposed == Exposed(routes)[i];
      assert RouteLoaded(specs, r);
    }
  }

  lemma {:induction false} SelectedLoaded(cfg: Config, specs: M.Specs, e: Expose, b: Backend, ops: seq<Operation>)
    requires ConfigLoaded(cfg, specs) && e.backend in cfg.specs
    requires forall op | op in ops :: op in cfg.specs[e.backend].ops
    ensures RoutesLoaded(specs, Selected(cfg, e, b, cfg.specs[e.backend].id, ops))
  {
    if ops != [] {
      SelectedLoaded(cfg, specs, e, b, ops[..|ops| - 1]);
      assert ops[|ops| - 1] in cfg.specs[e.backend].ops;
      LoadedPush(cfg, specs, e, b, ops[|ops| - 1],
                 Selected(cfg, e, b, cfg.specs[e.backend].id, ops[..|ops| - 1]));
    }
  }

  lemma {:induction false} AllRoutesLoaded(cfg: Config, specs: M.Specs, exposes: seq<Expose>)
    requires ConfigLoaded(cfg, specs)
    ensures RoutesLoaded(specs, AllRoutes(cfg, exposes))
  {
    if exposes != [] {
      AllRoutesLoaded(cfg, specs, exposes[..|exposes| - 1]);
      var e := exposes[|exposes| - 1];
      var b := BackendByName(cfg.backends, e.backend);
      if b.Some? && e.backend in cfg.specs {
        SelectedLoaded(cfg, specs, e, b.value, cfg.specs[e.backend].ops);
      }
    }
  }

  /** Exactly when a build succeeds. */
  ghost predicate Builds(cfg: Config, specs: M.Specs)
    requires ConfigLoaded(cfg, specs)
  {
    AllRoutesLoaded(cfg, specs, cfg.exposes);
    var routes := AllRoutes(cfg, cfg.exposes);
    && AllResolved(cfg, cfg.exposes)
    && (forall r {:trigger ParamsAgree(r)} | r in routes :: ParamsAgree(r))
    && SlotsApart(routes)
    && ExposedMergeable(specs, routes)
  }

  function ExposedJobs(specs: M.Specs, routes: seq<Route>): seq<C.Job>
    requires RoutesLoaded(specs, routes)
  {
    ExposedLoaded(specs, routes);
    C.Jobs(specs, Exposed(routes))
  }

  ghost predicate ExposedMergeable(specs: M.Specs, routes: seq<Route>)
    requires RoutesLoaded(specs, routes)
  {
    C.Mergeable(specs, ExposedJobs(specs, routes))
  }

  function SlotOf(r: Route): C.Slot {
    C.Slot(r.gatewayPath, ToLower(r.verb))
  }

  lemma ExposedSlots(specs: M.Specs, routes: seq<Route>, slot: C.Slot)
    requires RoutesLoaded(specs, routes)
    ensures slot in C.Slots(ExposedJobs(specs, routes)) <==> exists r :: r in routes && !r.hidden && SlotOf(r) == slot
  {
    ExposedLoaded(specs, routes);
    var ops, jobs := Exposed(routes), ExposedJobs(specs, routes);
    if slot in C.Slots(jobs) {
      var j :| j in jobs && j.slot == slot;
      var i :| 0 <= i < |ops| && jobs[i] == j;
      ExposedHas(routes, ops[i]);
      var r :| r in routes && !r.hidden && r.exposed == ops[i];
      assert RouteLoaded(specs, r);
    }
    if exists r :: r in routes && !r.hidden && SlotOf(r) == slot {
      var r :| r in routes && !r.hidden && SlotOf(r) == slot;
      assert RouteLoaded(specs, r);
      ExposedHas(routes, r.exposed);
      var i :| 0 <= i < |ops| && ops[i] == r.exposed;
      assert C.Loaded(specs, ops[i]) && jobs[i] in jobs && jobs[i].slot == slot;
    }
  }

  /** Routes on different (method, path) pairs stay apart in the merger's lower case. */
  lemma SlotsInjective(specs: M.Specs, a: Route, b: Route)
    requires RouteLoaded(specs, a) && RouteLoaded(specs, b) && SlotOf(a) == SlotOf(b)
    ensures a.verb == b.verb && a.gatewayPath == b.gatewayPath
  {
    LowerOfUpper(a.verb);
    LowerOfUpper(b.verb);
  }

  lemma ExposedJobsPush(specs: M.Specs, routes: seq<Route>, r: Route)
    requires RoutesLoaded(specs, routes) && RouteLoaded(specs, r) && RoutesLoaded(specs, routes + [r])
    ensures ExposedJobs(specs, routes + [r])
         == if r.hidden then ExposedJobs(specs, routes) else ExposedJobs(specs, routes) + [C.JobOf(r.exposed)]
  {
    ExposedPush(routes, r);
  }

  lemma SlotStillFree(specs: M.Specs, routes: seq<Route>, r: Route)
    requires RoutesLoaded(specs, routes) && RouteLoaded(specs, r)
    requires forall x | x in routes :: x.verb != r.verb || x.gatewayPath != r.gatewayPath
    ensures SlotOf(r) !in C.Slots(ExposedJobs(specs, routes))
  {
    ExposedSlots(specs, routes, SlotOf(r));
    forall x | x in routes ensures SlotOf(x) != SlotOf(r) {
      assert RouteLoaded(specs, x);
      if SlotOf(x) == SlotOf(r) {
        SlotsInjective(specs, x, r);
      }
    }
  }

  lemma {:induction false} ExposedApart(specs: M.Specs, routes: seq<Route>)
    requires RoutesLoaded(specs, routes) && SlotsApart(routes)
    ensures C.Distinct(ExposedJobs(specs, routes))
  {
    if routes != [] {
      var init, last := routes[..|routes| - 1], routes[|routes| - 1];
      assert routes == init + [last];
      assert forall r | r in init :: r in routes;
      assert last in routes && RouteLoaded(specs, last);
      ExposedApart(specs, init);
      SlotStillFree(specs, init, last);
      ExposedJobsPush(specs, init, last);
      C.DistinctPush(ExposedJobs(specs, init), C.JobOf(last.exposed));
    }
  }

  // ---- Build, pass by pass ----

  predicate AllAnswer(e: Expose, ops: seq<Operation>, n: nat)
    requires n <= |ops|
  {
    forall k {:trigger Answers(e, ops, k)} | 0 <= k < n :: Answers(e, ops, k)
  }

  lemma AppendTwice<A>(a: seq<A>, b: seq<A>, c: seq<A>)
    ensures (a + b) + c == a + (b + c)
  {
  }

  /** The operations of one spec in order, each selected, disabled or passed over. */
  method SelectOps(cfg: Config, specs: M.Specs, e: Expose, b: Backend, spec: LoadedSpec,
                   before: seq<Route>, exposed: seq<ExposedOp>)
    returns (good: bool, matched: nat, routes: seq<Route>, out: seq<ExposedOp>)
    requires ConfigLoaded(cfg, specs) && e.backend in cfg.specs && spec == cfg.specs[e.backend]
    requires RoutesLoaded(specs, before) && exposed == Exposed(before)
    ensures good <==> AllAnswer(e, spec.ops, |spec.ops|)
    ensures good ==> routes == before + Selected(cfg, e, b, spec.id, spec.ops)
    ensures good ==> out == Exposed(routes) && RoutesLoaded(specs, routes) && matched == |routes| - |before|
  {
    matched, routes, out := 0, before, exposed;
    for k := 0 to |spec.ops|
      invariant routes == before + Selected(cfg, e, b, spec.id, spec.ops[..k])
      invariant out == Exposed(routes) && RoutesLoaded(specs, routes)
      invariant AllAnswer(e, spec.ops, k)
      invariant matched == |routes| - |before|
    {
      var op := spec.ops[k];
      var choice := e.chosen(op.operationId);
      if choice.None? {
        assert !Answers(e, spec.ops, k);
        return false, matched, routes, out;
      }
      assert Answers(e, spec.ops, k);
      assert spec.ops[..k + 1] == spec.ops[..k] + [op];
      SelectedPush(cfg, e, b, spec.id, spec.ops[..k], op);
      if choice.value && !Disabled(e, op) {
        matched := matched + 1;
        var route := RouteOf(cfg, e, b, spec.id, op);
        LoadedPush(cfg, specs, e, b, op, routes);
        ExposedPush(routes, route);
        AppendTwice(before, Selected(cfg, e, b, spec.id, spec.ops[..k]), [route]);
        routes := routes + [route];
        if !route.hidden {
          out := out + [route.exposed];
        }
      }
    }
    assert spec.ops[..|spec.ops|] == spec.ops;
    good := true;
  }

  /** What went wrong with entry `i`. */
  predicate Explains(cfg: Config, i: nat, err: BuildError)
    requires i < |cfg.exposes|
  {
    var e := cfg.exposes[i];
    match err
    case NoBackend(k) => k == i && BackendByName(cfg.backends, e.backend).None?
    case NoSpec(k) => k == i && e.backend !in cfg.specs
    case BadPattern(k) =>
      k == i && e.backend in cfg.specs && !AllAnswer(e, cfg.specs[e.backend].ops, |cfg.specs[e.backend].ops|)
    case NothingSelected(k) => k == i && e.backend in cfg.specs && RoutesFrom(cfg, e) == []
    case _ => false
  }

  /** The first entry with a problem is the one reported. */
  predicate FirstTrouble(cfg: Config, err: BuildError) {
    exists i :: 0 <= i < |cfg.exposes| && AllResolved(cfg, cfg.exposes[..i]) && Explains(cfg, i, err)
  }

  /** One expose entry. */
  method ResolveExpose(cfg: Config, specs: M.Specs, i: nat, before: seq<Route>, exposed: seq<ExposedOp>)
    returns (r: Result<(seq<Route>, seq<ExposedOp>), BuildError>)
    requires i < |cfg.exposes| && ConfigLoaded(cfg, specs)
    requires RoutesLoaded(specs, before) && exposed == Exposed(before)
    ensures r.Ok? <==> Resolved(cfg, cfg.exposes[i])
    ensures r.Ok? ==> r.value.0 == before + RoutesFrom(cfg, cfg.exposes[i])
    ensures r.Ok? ==> r.value.1 == Exposed(r.value.0) && RoutesLoaded(specs, r.value.0)
    ensures r.Err? ==> Explains(cfg, i, r.error)
  {
    var e := cfg.exposes[i];
    var backend := BackendByName(cfg.backends, e.backend);
    if backend.None? {
      return Err(NoBackend(i));
    }
    if e.backend !in cfg.specs {
      return Err(NoSpec(i));
    }
    var good, matched, routes, out := SelectOps(cfg, specs, e, backend.value, cfg.specs[e.backend], before, exposed);
    if !good {
      return Err(BadPattern(i));
    }
    if matched == 0 {
      return Err(NothingSelected(i));
    }
    return Ok((routes, out));
  }

  lemma SelectedPush(cfg: Config, e: Expose, b: Backend, spec: SpecId, ops: seq<Operation>, op: Operation)
    ensures Selected(cfg, e, b, spec, ops + [op])
         == Selected(cfg, e, b, spec, ops) + if Serves(e, op) then [RouteOf(cfg, e, b, spec, op)] else []
  {
    assert (ops + [op])[..|ops|] == ops;
  }

  lemma LoadedPush(cfg: Config, specs: M.Specs, e: Expose, b: Backend, op: Operation, routes: seq<Route>)
    requires ConfigLoaded(cfg, specs) && e.backend in cfg.specs && op in cfg.specs[e.backend].ops
    requires RoutesLoaded(specs, routes)
    ensures RoutesLoaded(specs, routes + [RouteOf(cfg, e, b, cfg.specs[e.backend].id, op)])
  {
    var route := RouteOf(cfg, e, b, cfg.specs[e.backend].id, op);
    assert OpLoaded(specs, cfg.specs[e.backend].id, op);
    forall r | r in routes + [route] ensures RouteLoaded(specs, r) {
      assert r == route || r in routes;
    }
  }

  lemma AllRoutesPush(cfg: Config, exposes: seq<Expose>, i: nat)
    requires i < |exposes|
    ensures AllRoutes(cfg, exposes[..i + 1]) == AllRoutes(cfg, exposes[..i]) + RoutesFrom(cfg, exposes[i])
    ensures AllResolved(cfg, exposes[..i + 1]) <==> AllResolved(cfg, exposes[..i]) && Resolved(cfg, exposes[i])
  {
    assert exposes[..i + 1][..i] == exposes[..i];
  }

  lemma {:induction false} UnresolvedStays(cfg: Config, exposes: seq<Expose>, i: nat)
    requires i < |exposes| && !Resolved(cfg, exposes[i])
    ensures !AllResolved(cfg, exposes)
  {
    if i < |exposes| - 1 {
      UnresolvedStays(cfg, exposes[..|exposes| - 1], i);
    }
  }

  method ResolveAll(cfg: Config, specs: M.Specs) returns (r: Result<(seq<Route>, seq<ExposedOp>), BuildError>)
    requires ConfigLoaded(cfg, specs)
    ensures r.Ok? <==> AllResolved(cfg, cfg.exposes)
    ensures r.Ok? ==> r.value.0 == AllRoutes(cfg, cfg.exposes) && r.value.1 == Exposed(r.value.0)
    ensures r.Ok? ==> RoutesLoaded(specs, r.value.0)
    ensures r.Err? ==> FirstTrouble(cfg, r.error)
  {
    var routes: seq<Route>, out: seq<ExposedOp> := [], [];
    for i := 0 to |cfg.exposes|
      invariant AllResolved(cfg, cfg.exposes[..i])
      invariant routes == AllRoutes(cfg, cfg.exposes[..i])
      invariant out == Exposed(routes) && RoutesLoaded(specs, routes)
    {
      AllRoutesPush(cfg, cfg.exposes, i);
      var more := ResolveExpose(cfg, specs, i, routes, out);
      if more.Err? {
        UnresolvedStays(cfg, cfg.exposes, i);
        return Err(more.error);
      }
      routes, out := more.value.0, more.value.1;
    }
    assert cfg.exposes[..|cfg.exposes|] == cfg.exposes;
    return Ok((routes, out));
  }

  /** `checkParams` over all routes; which missing name is reported is left open, as it is
      by the iteration over a Go map. */
  method CheckAll(routes: seq<Route>) returns (err: Option<BuildError>)
    ensures err.None? <==> forall r {:trigger ParamsAgree(r)} | r in routes :: ParamsAgree(r)
    ensures err.Some? ==> err.value.MissingParam? && Misses(routes, err.value.route, err.value.name)
  {
    for i := 0 to |routes|
      invariant forall r {:trigger ParamsAgree(r)} | r in routes[..i] :: ParamsAgree(r)
    {
      var r := routes[i];
      var missing := S.TemplateParams(r.upstreamPath) - S.TemplateParams(r.gatewayPath);
      if missing != {} {
        assert !ParamsAgree(r);
        var name :| name in missing;
        assert Misses(routes, r, name);
        return Some(MissingParam(r, name));
      }
      assert forall n | n in S.TemplateParams(r.upstreamPath) :: n !in missing;
      assert ParamsAgree(r);
      assert forall x | x in routes[..i + 1] :: x in routes[..i] || x == r;
    }
    assert routes[..|routes|] == routes;
    return None;
  }

  /** A route whose upstream path needs a parameter its gateway path does not declare. */
  predicate Misses(routes: seq<Route>, r: Route, name: string) {
    r in routes && name in S.TemplateParams(r.upstreamPath) && name !in S.TemplateParams(r.gatewayPath)
  }

  /** Two routes may not claim one (method, path), hidden or not; both are named. */
  method ClaimAll(routes: seq<Route>) returns (err: Option<BuildError>)
    requires forall r | r in routes :: ' ' !in r.verb
    ensures err.None? <==> SlotsApart(routes)
    ensures err.Some? ==> SomeClash(routes, err.value)
  {
    var claimed: map<string, Route> := map[];
    for i := 0 to |routes|
      invariant SlotsApart(routes[..i])
      invariant forall key | key in claimed :: claimed[key] in routes[..i] && SlotKey(claimed[key]) == key
      invariant forall r | r in routes[..i] :: SlotKey(r) in claimed
    {
      var r := routes[i];
      if SlotKey(r) in claimed {
        var prev := claimed[SlotKey(r)];
        var j :| 0 <= j < i && routes[j] == prev;
        SlotKeyInjective(prev, r);
        var e := SlotTaken(r.verb, r.gatewayPath, prev.backend + "." + prev.upstreamId, r.backend + "." + r.upstreamId);
        assert Clash(routes[j], routes[i], e);
        return Some(e);
      }
      forall j | 0 <= j < i ensures routes[j].verb != r.verb || routes[j].gatewayPath != r.gatewayPath {
        assert routes[j] in routes[..i];
      }
      assert routes[..i + 1] == routes[..i] + [r];
      claimed := claimed[SlotKey(r) := r];
    }
    assert routes[..|routes|] == routes;
    return None;
  }

  predicate Clash(a: Route, b: Route, e: BuildError) {
    && a.verb == b.verb && a.gatewayPath == b.gatewayPath
    && e == SlotTaken(b.verb, b.gatewayPath, a.backend + "." + a.upstreamId, b.backend + "." + b.upstreamId)
  }

  function SlotKey(r: Route): string {
    r.verb + " " + r.gatewayPath
  }

  lemma SlotKeyInjective(a: Route, b: Route)
    requires ' ' !in a.verb && ' ' !in b.verb && SlotKey(a) == SlotKey(b)
    ensures a.verb == b.verb && a.gatewayPath == b.gatewayPath
  {
    IndexOfPrefix(a.verb, ' ', a.gatewayPath);
    IndexOfPrefix(b.verb, ' ', b.gatewayPath);
    var k := SlotKey(a);
    assert k == a.verb + [' '] + a.gatewayPath && k == b.verb + [' '] + b.gatewayPath;
    assert k[..|a.verb|] == a.verb && k[..|b.verb|] == b.verb;
    assert k[|a.verb| + 1..] == a.gatewayPath && k[|b.verb| + 1..] == b.gatewayPath;
  }

  lemma VerbsHaveNoSpace(specs: M.Specs, routes: seq<Route>)
    requires RoutesLoaded(specs, routes)
    ensures forall r | r in routes :: ' ' !in r.verb
  {
    forall r | r in routes ensures ' ' !in r.verb {
      assert RouteLoaded(specs, r);
      MethodHasNoSpace(ToLower(r.verb));
      LowerKeepsSpaces(r.verb);
    }
  }

  lemma LowerKeepsSpaces(verb: string)
    requires ' ' !in ToLower(verb)
    ensures ' ' !in verb
  {
    var lower := ToLower(verb);
    forall i | 0 <= i < |verb| ensures verb[i] != ' ' {
      assert lower[i] == LowerChar(verb[i]) && lower[i] in lower;
    }
  }

  lemma MethodHasNoSpace(m: string)
    requires m in C.HTTP_METHODS
    ensures ' ' !in m
  {
  }

  // ---- the sorted table ----

  predicate RouteLeq(a: Route, b: Route) {
    if a.gatewayPath != b.gatewayPath then Leq(a.gatewayPath, b.gatewayPath) else Leq(a.verb, b.verb)
  }

  predicate Sorted(routes: seq<Route>) {
    forall i, j | 0 <= i < j < |routes| :: RouteLeq(routes[i], routes[j])
  }

  lemma RouteLeqTotal(a: Route, b: Route)
    ensures RouteLeq(a, b) || RouteLeq(b, a)
  {
    LeqTotal(a.gatewayPath, b.gatewayPath);
    LeqTotal(a.verb, b.verb);
  }

  lemma RouteLeqTrans(a: Route, b: Route, c: Route)
    requires RouteLeq(a, b) && RouteLeq(b, c)
    ensures RouteLeq(a, c)
  {
    if a.gatewayPath == b.gatewayPath == c.gatewayPath {
      LeqTrans(a.verb, b.verb, c.verb);
    } else if a.gatewayPath != b.gatewayPath && b.gatewayPath != c.gatewayPath {
      LeqTrans(a.gatewayPath, b.gatewayPath, c.gatewayPath);
      if a.gatewayPath == c.gatewayPath {
        LeqAntisymmetric(a.gatewayPath, b.gatewayPath);
      }
    }
  }

  /** `sort.SliceStable` by path, then method. */
  function SortRoutes(routes: seq<Route>): (out: seq<Route>)
    ensures Sorted(out) && multiset(out) == multiset(routes)
  {
    if routes == [] then []
    else
      assert routes == [routes[0]] + routes[1..];
      Insert(routes[0], SortRoutes(routes[1..]))
  }

  /** Sorted means by path, then by method. */
  lemma SortedByPath(routes: seq<Route>, i: nat, j: nat)
    requires i < j < |routes|
    ensures |SortRoutes(routes)| == |routes|
    ensures var a, b := SortRoutes(routes)[i], SortRoutes(routes)[j];
      if a.gatewayPath == b.gatewayPath then Precedes(a.verb, b.verb) else Precedes(a.gatewayPath, b.gatewayPath)
  {
    var out := SortRoutes(routes);
    assert |multiset(out)| == |multiset(routes)|;
    assert RouteLeq(out[i], out[j]);
    LeqIsPrecedes(out[i].gatewayPath, out[j].gatewayPath);
    LeqIsPrecedes(out[i].verb, out[j].verb);
  }

  function Insert(r: Route, routes: seq<Route>): (out: seq<Route>)
    requires Sorted(routes)
    ensures Sorted(out) && multiset(out) == multiset([r]) + multiset(routes)
  {
    if routes == [] then [r]
    else
      RouteLeqTotal(r, routes[0]);
      if RouteLeq(r, routes[0]) then
        FirstLeqAll(r, routes);
        [r] + routes
      else
        var rest := Insert(r, routes[1..]);
        InsertedAfter(r, routes, rest);
        [routes[0]] + rest
  }

  lemma InsertedAfter(r: Route, routes: seq<Route>, rest: seq<Route>)
    requires routes != [] && Sorted(routes) && RouteLeq(routes[0], r)
    requires Sorted(rest) && multiset(rest) == multiset([r]) + multiset(routes[1..])
    ensures Sorted([routes[0]] + rest)
    ensures multiset([routes[0]] + rest) == multiset([r]) + multiset(routes)
  {
    assert routes == [routes[0]] + routes[1..];
    forall i | 0 <= i < |rest| ensures RouteLeq(routes[0], rest[i]) {
      assert rest[i] in multiset(rest);
      assert rest[i] == r || rest[i] in routes[1..];
    }
  }

  lemma FirstLeqAll(r: Route, routes: seq<Route>)
    requires routes != [] && RouteLeq(r, routes[0]) && Sorted(routes)
    ensures forall i | 0 <= i < |routes| :: RouteLeq(r, routes[i])
  {
    forall i | 0 < i < |routes| ensures RouteLeq(r, routes[i]) {
      RouteLeqTrans(r, routes[0], routes[i]);
    }
  }

  // ---- the methods of each path ----

  predicate HasRoute(routes: seq<Route>, verb: string, path: string) {
    exists r :: r in routes && r.verb == verb && r.gatewayPath == path
  }

  /** Every path lists exactly the methods served there, sorted. */
  ghost predicate AllowedRight(routes: seq<Route>, allowed: map<string, seq<string>>) {
    && (forall path | path in allowed :: R.Ascending(allowed[path]))
    && (forall path, verb {:trigger HasRoute(routes, verb, path)} ::
          HasRoute(routes, verb, path) <==> path in allowed && verb in allowed[path])
  }

  method MethodsByPath(routes: seq<Route>) returns (allowed: map<string, seq<string>>)
    requires SlotsApart(routes)
    ensures AllowedRight(routes, allowed)
  {
    allowed := map[];
    for i := 0 to |routes|
      invariant AllowedRight(routes[..i], allowed)
    {
      var r := routes[i];
      var listed := if r.gatewayPath in allowed then allowed[r.gatewayPath] else [];
      assert HasRoute(routes[..i], r.verb, r.gatewayPath) ==> r.verb in listed;
      NotYetListed(routes, i);
      AllowedPush(routes[..i], r, allowed, listed);
      assert routes[..i + 1] == routes[..i] + [r];
      allowed := allowed[r.gatewayPath := R.Inserted(listed, r.verb)];
    }
    assert routes[..|routes|] == routes;
  }

  lemma NotYetListed(routes: seq<Route>, i: nat)
    requires SlotsApart(routes) && i < |routes|
    ensures !HasRoute(routes[..i], routes[i].verb, routes[i].gatewayPath)
  {
  }

  lemma AllowedPush(routes: seq<Route>, r: Route, allowed: map<string, seq<string>>, listed: seq<string>)
    requires AllowedRight(routes, allowed) && !HasRoute(routes, r.verb, r.gatewayPath)
    requires listed == if r.gatewayPath in allowed then allowed[r.gatewayPath] else []
    ensures R.Ascending(listed) && r.verb !in listed
    ensures AllowedRight(routes + [r], allowed[r.gatewayPath := R.Inserted(listed, r.verb)])
  {
    var more := allowed[r.gatewayPath := R.Inserted(listed, r.verb)];
    forall path, verb
      ensures HasRoute(routes + [r], verb, path) <==> path in more && verb in more[path]
    {
      HasRoutePush(routes, r, verb, path);
      assert HasRoute(routes, verb, path) <==> path in allowed && verb in allowed[path];
    }
  }

  lemma HasRoutePush(routes: seq<Route>, r: Route, verb: string, path: string)
    ensures HasRoute(routes + [r], verb, path) <==>
            HasRoute(routes, verb, path) || (r.verb == verb && r.gatewayPath == path)
  {
    assert forall x :: x in routes + [r] <==> x in routes || x == r;
  }

  // ---- Build ----

  /** The document publishes exactly the routes that are not hidden. */
  ghost predicate PublishedMinusHidden(routes: seq<Route>, doc: O.Document) {
    forall slot {:trigger slot in doc.operations} ::
      slot in doc.operations <==> exists r :: r in routes && !r.hidden && SlotOf(r) == slot
  }

  /** Everything a built table promises. */
  ghost predicate TableRight(cfg: Config, specs: M.Specs, t: Table, names: O.Names)
    requires ConfigLoaded(cfg, specs)
  {
    AllRoutesLoaded(cfg, specs, cfg.exposes);
    var routes := AllRoutes(cfg, cfg.exposes);
    && multiset(t.routes) == multiset(routes) && Sorted(t.routes)
    && SlotsApart(t.routes) && AllowedRight(t.routes, t.allowed)
    && (forall r {:trigger ParamsAgree(r)} | r in t.routes :: ParamsAgree(r))
    && RoutesLoaded(specs, t.routes)
    && PublishedMinusHidden(t.routes, t.doc)
    && O.Published(specs, ExposedJobs(specs, routes), cfg.publish, t.doc, names)
  }

  predicate SomeClash(routes: seq<Route>, err: BuildError) {
    exists i, j :: 0 <= i < j < |routes| && Clash(routes[i], routes[j], err)
  }

  /** A refusal says what is wrong, and blames what is to blame. The merger can no longer
      meet a collision. */
  predicate Diagnosed(cfg: Config, err: BuildError) {
    var routes := AllRoutes(cfg, cfg.exposes);
    match err
    case MissingParam(r, name) => Misses(routes, r, name)
    case SlotTaken(_, _, _, _) => SomeClash(routes, err)
    case MergeFailed(e) => !e.Collision?
    case _ => FirstTrouble(cfg, err)
  }

  /** The checks over the collected routes. */
  method CheckRoutes(specs: M.Specs, routes: seq<Route>) returns (err: Option<BuildError>)
    requires RoutesLoaded(specs, routes)
    ensures err.None? <==> (forall r {:trigger ParamsAgree(r)} | r in routes :: ParamsAgree(r)) && SlotsApart(routes)
    ensures err.Some? && err.value.MissingParam? ==> Misses(routes, err.value.route, err.value.name)
    ensures err.Some? && !err.value.MissingParam? ==> err.value.SlotTaken? && SomeClash(routes, err.value)
  {
    err := CheckAll(routes);
    if err.Some? {
      return;
    }
    VerbsHaveNoSpace(specs, routes);
    err := ClaimAll(routes);
    if err.Some? {
      ClashIsTaken(routes, err.value);
    }
  }

  lemma ClashIsTaken(routes: seq<Route>, err: BuildError)
    requires SomeClash(routes, err)
    ensures err.SlotTaken?
  {
  }

  /** The table, once the exposed operations have merged. */
  method TableOf(cfg: Config, specs: M.Specs, routes: seq<Route>, doc: O.Document, ghost names: O.Names)
    returns (t: Table)
    requires ConfigLoaded(cfg, specs) && routes == AllRoutes(cfg, cfg.exposes) && RoutesLoaded(specs, routes)
    requires SlotsApart(routes) && forall r {:trigger ParamsAgree(r)} | r in routes :: ParamsAgree(r)
    requires O.Published(specs, ExposedJobs(specs, routes), cfg.publish, doc, names)
    ensures TableRight(cfg, specs, t, names)
  {
    var sorted := SortRoutes(routes);
    SortedKeeps(specs, routes, sorted);
    PublishedSorted(specs, routes, sorted, cfg.publish, doc, names);
    var allowed := MethodsByPath(sorted);
    t := Table(sorted, allowed, doc);
  }

  /** Routes that passed the checks make a table exactly when what is exposed merges. */
  method MergeRoutes(cfg: Config, specs: M.Specs, routes: seq<Route>, exposed: seq<ExposedOp>)
    returns (r: Result<Table, BuildError>, ghost names: O.Names)
    requires ConfigLoaded(cfg, specs) && routes == AllRoutes(cfg, cfg.exposes) && RoutesLoaded(specs, routes)
    requires exposed == Exposed(routes) && SlotsApart(routes)
    requires forall r {:trigger ParamsAgree(r)} | r in routes :: ParamsAgree(r)
    ensures r.Ok? <==> ExposedMergeable(specs, routes)
    ensures r.Err? ==> r.error.MergeFailed? && !r.error.error.Collision?
    ensures r.Ok? ==> TableRight(cfg, specs, r.value, names)
  {
    ExposedLoaded(specs, routes);
    ExposedApart(specs, routes);
    var merged;
    merged, names := G.Merge(specs, exposed, cfg.publish);
    if merged.Err? {
      return Err(MergeFailed(merged.error)), names;
    }
    var table := TableOf(cfg, specs, routes, merged.value, names);
    return Ok(table), names;
  }

  /** `Build`: it succeeds exactly when every entry resolves to something, every upstream
      parameter is provided, no (method, path) is claimed twice, hidden or not, and what is
      exposed merges; a refusal names the culprit. */
  method Build(cfg: Config, specs: M.Specs) returns (r: Result<Table, BuildError>, ghost names: O.Names)
    requires ConfigLoaded(cfg, specs)
    ensures r.Ok? <==> Builds(cfg, specs)
    ensures r.Err? ==> Diagnosed(cfg, r.error)
    ensures r.Ok? ==> TableRight(cfg, specs, r.value, names)
  {
    names := O.Names(map[], map[]);
    AllRoutesLoaded(cfg, specs, cfg.exposes);
    var resolved := ResolveAll(cfg, specs);
    if resolved.Err? {
      return Err(resolved.error), names;
    }
    var (routes, exposed) := resolved.value;
    var trouble := CheckRoutes(specs, routes);
    if trouble.Some? {
      return Err(trouble.value), names;
    }
    r, names := MergeRoutes(cfg, specs, routes, exposed);
  }

  lemma SortedKeeps(specs: M.Specs, routes: seq<Route>, sorted: seq<Route>)
    requires multiset(sorted) == multiset(routes) && Sorted(sorted)
    requires RoutesLoaded(specs, routes) && SlotsApart(routes)
    requires forall r {:trigger ParamsAgree(r)} | r in routes :: ParamsAgree(r)
    ensures RoutesLoaded(specs, sorted) && SlotsApart(sorted)
    ensures forall r {:trigger ParamsAgree(r)} | r in sorted :: ParamsAgree(r)
  {
    forall r | r in sorted ensures RouteLoaded(specs, r) && ParamsAgree(r) {
      A.SameMembers(sorted, routes, r);
    }
    StillApart(routes, sorted);
  }

  lemma WithoutOne(a: seq<Route>, k: nat) returns (rest: seq<Route>)
    requires k < |a| && SlotsApart(a)
    ensures multiset(a) == multiset([a[k]]) + multiset(rest) && |rest| < |a| && SlotsApart(rest)
    ensures forall x | x in rest :: x.verb != a[k].verb || x.gatewayPath != a[k].gatewayPath
  {
    rest := a[..k] + a[k + 1..];
    assert a == a[..k] + [a[k]] + a[k + 1..];
    assert forall i | 0 <= i < |rest| :: rest[i] == a[if i < k then i else i + 1];
  }

  lemma SameWithoutFirst(a: seq<Route>, rest: seq<Route>, b: seq<Route>)
    requires b != [] && multiset(a) == multiset(b) && multiset(a) == multiset([b[0]]) + multiset(rest)
    ensures multiset(rest) == multiset(b[1..])
  {
    assert b == [b[0]] + b[1..];
    assert multiset(b) == multiset([b[0]]) + multiset(b[1..]);
    assert multiset(rest) == multiset(a) - multiset([b[0]]);
    assert multiset(b[1..]) == multiset(b) - multiset([b[0]]);
  }

  /** Distinctness does not depend on order. */
  lemma {:induction false} StillApart(a: seq<Route>, b: seq<Route>)
    requires multiset(a) == multiset(b) && SlotsApart(a)
    ensures SlotsApart(b)
    decreases |a|
  {
    if b != [] {
      A.SameMembers(a, b, b[0]);
      var k :| 0 <= k < |a| && a[k] == b[0];
      var rest := WithoutOne(a, k);
      SameWithoutFirst(a, rest, b);
      StillApart(rest, b[1..]);
      forall j | 0 < j < |b| ensures b[j].verb != b[0].verb || b[j].gatewayPath != b[0].gatewayPath {
        A.SameMembers(rest, b[1..], b[1..][j - 1]);
      }
    }
  }

  lemma RouteLeqAntisymmetric(a: Route, b: Route)
    requires RouteLeq(a, b) && RouteLeq(b, a)
    ensures a.gatewayPath == b.gatewayPath && a.verb == b.verb
  {
    if a.gatewayPath != b.gatewayPath {
      LeqAntisymmetric(a.gatewayPath, b.gatewayPath);
    } else {
      LeqAntisymmetric(a.verb, b.verb);
    }
  }

  lemma FirstIsLeast(a: seq<Route>, b: seq<Route>)
    requires a != [] && b != [] && multiset(a) == multiset(b) && SlotsApart(a) && Sorted(a) && Sorted(b)
    ensures a[0] == b[0]
  {
    A.SameMembers(a, b, b[0]);
    A.SameMembers(a, b, a[0]);
    var k :| 0 <= k < |a| && a[k] == b[0];
    var l :| 0 <= l < |b| && b[l] == a[0];
    if k > 0 && l > 0 {
      RouteLeqAntisymmetric(a[0], b[0]);
    }
  }

  /** Sorting leaves no choice: the paths and methods are all different, so any sorted
      arrangement of the routes is the stable one. */
  lemma {:induction false} OneOrder(a: seq<Route>, b: seq<Route>)
    requires multiset(a) == multiset(b) && SlotsApart(a) && Sorted(a) && Sorted(b)
    ensures a == b
    decreases |a|
  {
    SameLength(a, b);
    if a != [] {
      StillApart(a, b);
      FirstIsLeast(a, b);
      assert a == [a[0]] + a[1..] && b == [b[0]] + b[1..];
      assert multiset(a) == multiset([a[0]]) + multiset(a[1..]);
      SameWithoutFirst(a, a[1..], b);
      OneOrder(a[1..], b[1..]);
    }
  }

  lemma SameLength(a: seq<Route>, b: seq<Route>)
    requires multiset(a) == multiset(b)
    ensures |a| == |b|
  {
    assert |multiset(a)| == |a| && |multiset(b)| == |b|;
  }

  lemma PublishedSorted(specs: M.Specs, routes: seq<Route>, sorted: seq<Route>, opt: O.Options, doc: O.Document,
                        names: O.Names)
    requires multiset(sorted) == multiset(routes) && RoutesLoaded(specs, routes)
    requires O.Published(specs, ExposedJobs(specs, routes), opt, doc, names)
    ensures PublishedMinusHidden(sorted, doc)
  {
    forall slot {:trigger slot in doc.operations}
      ensures slot in doc.operations <==> exists r :: r in sorted && !r.hidden && SlotOf(r) == slot
    {
      ExposedSlots(specs, routes, slot);
      forall r ensures r in sorted <==> r in routes {
        A.SameMembers(sorted, routes, r);
      }
    }
  }

  // ---- where a route comes from ----

  /** The backend a name means: the first that has it. */
  ghost predicate Named(backends: seq<Backend>, name: string, b: Backend) {
    exists i :: NamedAt(backends, name, b, i)
  }

  predicate NamedAt(backends: seq<Backend>, name: string, b: Backend, i: int) {
    0 <= i < |backends| && backends[i] == b && b.name == name && forall j | 0 <= j < i :: backends[j].name != name
  }

  lemma NamedLater(backends: seq<Backend>, name: string, b: Backend, i: int)
    requires backends != [] && backends[0].name != name
    ensures NamedAt(backends, name, b, i + 1) <==> NamedAt(backends[1..], name, b, i)
  {
    if NamedAt(backends[1..], name, b, i) {
      assert forall j | 0 < j < i + 1 :: backends[j] == backends[1..][j - 1];
    }
    if NamedAt(backends, name, b, i + 1) && i >= 0 {
      assert forall j | 0 <= j < i :: backends[1..][j] == backends[j + 1];
    }
  }

  lemma {:induction false} NamedIs(backends: seq<Backend>, name: string, b: Backend)
    ensures Named(backends, name, b) <==> BackendByName(backends, name) == Some(b)
  {
    if backends != [] {
      if backends[0].name == name {
        assert NamedAt(backends, name, backends[0], 0);
      } else {
        NamedIs(backends[1..], name, b);
        if i :| NamedAt(backends, name, b, i) {
          NamedLater(backends, name, b, i - 1);
        }
        if i :| NamedAt(backends[1..], name, b, i) {
          NamedLater(backends, name, b, i);
        }
      }
    }
  }

  /** An operation the entry exposes: chosen by its globs and not switched off by an override. */
  ghost predicate Exposes(cfg: Config, e: Expose, b: Backend, op: Operation) {
    && e in cfg.exposes && Named(cfg.backends, e.backend, b)
    && e.backend in cfg.specs && op in cfg.specs[e.backend].ops
    && e.chosen(op.operationId) == Some(true)
    && !(op.operationId in e.overrides && e.overrides[op.operationId].disabled)
  }

  /** What the route of an operation is like: the operation's own method, path and id towards the
      backend; the override's path, or the operation's mounted under the prefix, towards the
      clients; the override's middleware, or the entry's; hidden by any of its tags. */
  predicate Tells(cfg: Config, e: Expose, b: Backend, op: Operation, r: Route)
    requires e.backend in cfg.specs
  {
    && r.verb == op.verb && r.upstreamPath == op.path && r.upstreamId == op.operationId && r.backend == b.name
    && r.exposed.op == op && r.exposed.gatewayPath == r.gatewayPath
    && r.exposed.source == Source(cfg.specs[e.backend].id, b.name, b.namespace)
    && r.exposed.operationId == Sanitise(b.name) + "_" + op.operationId
    && r.gatewayPath == (if op.operationId in e.overrides && e.overrides[op.operationId].path != ""
                         then e.overrides[op.operationId].path
                         else JoinPath(e.prefix, StripPrefix(op.path, b.stripPrefix)))
    && r.middleware == (if op.operationId in e.overrides && e.overrides[op.operationId].middleware.Some?
                        then e.overrides[op.operationId].middleware.value else e.middleware)
    && (r.hidden <==> exists tag :: tag in op.tags && tag in cfg.hideTags)
  }

  ghost predicate Comes(cfg: Config, e: Expose, b: Backend, op: Operation, r: Route) {
    Exposes(cfg, e, b, op) && Tells(cfg, e, b, op, r)
  }

  lemma {:induction false} SelectedFrom(cfg: Config, e: Expose, b: Backend, spec: SpecId, ops: seq<Operation>, r: Route)
    ensures r in Selected(cfg, e, b, spec, ops) <==>
            exists op :: op in ops && Serves(e, op) && r == RouteOf(cfg, e, b, spec, op)
  {
    if ops != [] {
      var init, last := ops[..|ops| - 1], ops[|ops| - 1];
      SelectedFrom(cfg, e, b, spec, init, r);
      assert forall op :: op in ops <==> op in init || op == last;
    }
  }

  lemma {:induction false} AllRoutesFrom(cfg: Config, exposes: seq<Expose>, r: Route)
    ensures r in AllRoutes(cfg, exposes) <==> exists e :: e in exposes && r in RoutesFrom(cfg, e)
  {
    if exposes != [] {
      var init, last := exposes[..|exposes| - 1], exposes[|exposes| - 1];
      AllRoutesFrom(cfg, init, r);
      assert forall e :: e in exposes <==> e in init || e == last;
    }
  }

  lemma RouteTells(cfg: Config, e: Expose, b: Backend, op: Operation)
    requires e.backend in cfg.specs
    ensures Tells(cfg, e, b, op, RouteOf(cfg, e, b, cfg.specs[e.backend].id, op))
  {
  }

  lemma InTable(cfg: Config, specs: M.Specs, t: Table, names: O.Names, r: Route)
    requires ConfigLoaded(cfg, specs) && TableRight(cfg, specs, t, names)
    ensures r in t.routes <==> exists e :: e in cfg.exposes && r in RoutesFrom(cfg, e)
  {
    AllRoutesFrom(cfg, cfg.exposes, r);
    assert r in t.routes <==> r in multiset(t.routes);
    assert r in AllRoutes(cfg, cfg.exposes) <==> r in multiset(AllRoutes(cfg, cfg.exposes));
  }

  /** Every route of a built table is that of an operation some entry exposes. */
  lemma RouteComes(cfg: Config, specs: M.Specs, t: Table, names: O.Names, r: Route)
    returns (e: Expose, b: Backend, op: Operation)
    requires ConfigLoaded(cfg, specs) && TableRight(cfg, specs, t, names) && r in t.routes
    ensures Comes(cfg, e, b, op, r)
  {
    InTable(cfg, specs, t, names, r);
    e :| e in cfg.exposes && r in RoutesFrom(cfg, e);
    b := BackendByName(cfg.backends, e.backend).value;
    NamedIs(cfg.backends, e.backend, b);
    SelectedFrom(cfg, e, b, cfg.specs[e.backend].id, cfg.specs[e.backend].ops, r);
    op :| op in cfg.specs[e.backend].ops && Serves(e, op) && r == RouteOf(cfg, e, b, cfg.specs[e.backend].id, op);
    RouteTells(cfg, e, b, op);
  }

  /** And every such operation has one. */
  lemma ExposedComes(cfg: Config, specs: M.Specs, t: Table, names: O.Names, e: Expose, b: Backend, op: Operation)
    returns (r: Route)
    requires ConfigLoaded(cfg, specs) && TableRight(cfg, specs, t, names) && Exposes(cfg, e, b, op)
    ensures r in t.routes && Comes(cfg, e, b, op, r)
  {
    r := RouteOf(cfg, e, b, cfg.specs[e.backend].id, op);
    NamedIs(cfg.backends, e.backend, b);
    SelectedFrom(cfg, e, b, cfg.specs[e.backend].id, cfg.specs[e.backend].ops, r);
    InTable(cfg, specs, t, names, r);
    RouteTells(cfg, e, b, op);
  }

  /** An entry is resolved exactly when its backend and its spec are there, no glob fails and it
      exposes something. */
  lemma ResolvedExactly(cfg: Config, e: Expose)
    requires e in cfg.exposes
    ensures Resolved(cfg, e) <==>
            && (exists b :: Named(cfg.backends, e.backend, b)) && e.backend in cfg.specs
            && (forall op | op in cfg.specs[e.backend].ops :: e.chosen(op.operationId).Some?)
            && (exists b, op :: Exposes(cfg, e, b, op))
  {
    var found := BackendByName(cfg.backends, e.backend);
    forall b ensures Named(cfg.backends, e.backend, b) <==> found == Some(b) {
      NamedIs(cfg.backends, e.backend, b);
    }
    if found.Some? && e.backend in cfg.specs {
      var ops := cfg.specs[e.backend].ops;
      SelectedAny(cfg, e, found.value, cfg.specs[e.backend].id, ops);
      assert AllAnswer(e, ops, |ops|) <==> forall op | op in ops :: e.chosen(op.operationId).Some? by {
        if AllAnswer(e, ops, |ops|) {
          forall op | op in ops ensures e.chosen(op.operationId).Some? {
            var k :| 0 <= k < |ops| && ops[k] == op;
            assert Answers(e, ops, k);
          }
        }
      }
      assert forall op :: op in ops && Serves(e, op) <==> Exposes(cfg, e, found.value, op);
    }
  }

  lemma SelectedAny(cfg: Config, e: Expose, b: Backend, spec: SpecId, ops: seq<Operation>)
    ensures Selected(cfg, e, b, spec, ops) != [] <==> exists op :: op in ops && Serves(e, op)
  {
    var routes := Selected(cfg, e, b, spec, ops);
    if routes != [] {
      SelectedFrom(cfg, e, b, spec, ops, routes[0]);
    }
    if op :| op in ops && Serves(e, op) {
      SelectedFrom(cfg, e, b, spec, ops, RouteOf(cfg, e, b, spec, op));
    }
  }

  // ---- mounting ----

  /** A path below the prefix loses it, the prefix itself becomes the root, anything else stays; a
      slash at the end of the prefix makes no difference. */
  lemma StripExactly(prefix: string, rest: string, p: string)
    requires prefix != "" && prefix[|prefix| - 1] != '/'
    ensures StripPrefix(prefix + "/" + rest, prefix) == StripPrefix(prefix + "/" + rest, prefix + "/") == "/" + rest
    ensures StripPrefix(prefix, prefix) == StripPrefix(prefix, prefix + "/") == "/"
    ensures p != prefix && !HasPrefix(p, prefix + "/") ==> StripPrefix(p, prefix) == StripPrefix(p, prefix + "/") == p
    ensures StripPrefix(p, "") == StripPrefix(p, "/") == p
  {
    assert (prefix + "/")[..|prefix|] == prefix && (prefix + "/")[|prefix|] == '/';
    var q := prefix + "/" + rest;
    assert q[..|prefix| + 1] == prefix + "/" && q[|prefix|..] == "/" + rest && |q| > |prefix|;
    assert TrimSuffix(prefix) == TrimSuffix(prefix + "/") == prefix;
    assert prefix + "/" != "/";
    assert prefix != "/" by {
      assert prefix[|prefix| - 1] != '/';
    }
  }

  /** Joining puts one slash between mount and path, and none behind a mount without a path. */
  lemma JoinExactly(mount: string, p: string)
    requires mount == "" || mount[|mount| - 1] != '/'
    ensures JoinPath(mount, "") == JoinPath(mount, "/") == JoinPath(mount + "/", "/")
            == if mount == "" then "/" else mount
    ensures p != "" ==> JoinPath(mount, "/" + p) == JoinPath(mount + "/", "/" + p) == mount + "/" + p
    ensures p != "" && p[0] != '/' ==> JoinPath(mount, p) == JoinPath(mount + "/", p) == mount + "/" + p
  {
    assert (mount + "/")[..|mount|] == mount && (mount + "/")[|mount|] == '/';
    assert TrimSuffix(mount) == TrimSuffix(mount + "/") == mount;
    assert ("/" + p)[..1] == "/";
    assert mount + ("/" + p) == mount + "/" + p;
    if p != "" && p[0] != '/' {
      assert p[..1] != "/" by {
        assert p[..1][0] == p[0];
      }
    }
  }

  /** What is mounted under a prefix and stripped of it again is what it was. */
  lemma StripUndoesJoin(prefix: string, p: string)
    requires prefix != "" && prefix[|prefix| - 1] != '/'
    ensures StripPrefix(JoinPath(prefix, "/" + p), prefix) == "/" + p
  {
    StripExactly(prefix, p, "");
    JoinExactly(prefix, p);
    assert "/" + "" == "/";
  }

  /** A gateway operation id keeps the letters and digits of the backend's name and puts an
      underscore for anything else. */
  lemma SanitiseExactly(name: string, i: nat)
    requires i < |name|
    ensures |Sanitise(name)| == |name|
    ensures Sanitise(name)[i] == if Alphanumeric(name[i]) then name[i] else '_'
  {
    var c := name[i];
    if 'a' <= c <= 'z' {
      assert c == Small(c as int - 'a' as int);
    }
    if 'A' <= c <= 'Z' {
      assert c == Big(c as int - 'A' as int);
    }
    if '0' <= c <= '9' {
      assert c == Digit(c as int - '0' as int);
    }
  }

  predicate Alphanumeric(c: char) {
    (exists i: nat :: i < 26 && (c == Small(i) || c == Big(i))) || (exists i: nat :: i < 10 && c == Digit(i))
  }
}
