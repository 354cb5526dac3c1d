/** Merges that succeed and still fall short, each at a concrete input: a place inside a
    component that collapses, a gateway scheme over an imported one, an unlisted section. */
module MergeLimits {
  import opened Wrappers
  import opened Text
  import opened JsonPointer
  import opened Nodes
  import opened Meaning
  import opened Fingerprint
  import opened Operations
  import opened Copying
  import opened Documents
  import M = Merger

  // ---- operations with one reference ----

  /** An operation whose one response refers to a component. */
  function Answers(ref: string): Node {
    Mapping([Entry("responses", Mapping([Entry("200", Mapping([Entry("$ref", Str(ref))]))]))])
  }

  function Call(src: Source, path: string, ref: string): ExposedOp {
    ExposedOp(src, Operation(path, "GET", "get", [], Answers(ref), None), path, src.backend + "_get")
  }

  lemma SetKeepsRefs(n: Node, key: string, text: string, r: string)
    requires n.Mapping? && key !in Keys(n.entries) && key != "$ref"
    ensures r in Refs(MapSet(n, key, Str(text))) <==> r in Refs(n)
  {
    var longer := MapSet(n, key, Str(text));
    if r in Refs(longer) {
      var i := RefSource(longer, r);
      if i < |n.entries| {
        RefsOfEntry(n, i, r);
      }
    }
    if r in Refs(n) {
      var i := RefSource(n, r);
      RefsOfEntry(longer, i, r);
    }
  }

  lemma OneRef(key: string, n: Node, r: string)
    requires key != "$ref"
    ensures r in Refs(Mapping([Entry(key, n)])) <==> r in Refs(n)
  {
    var whole := Mapping([Entry(key, n)]);
    if r in Refs(whole) {
      var i := RefSource(whole, r);
    }
    if r in Refs(n) {
      RefsOfEntry(whole, 0, r);
    }
  }

  lemma AnswerRefs(ref: string, r: string)
    ensures r in Refs(Answers(ref)) <==> r == ref
  {
    var holder := Mapping([Entry("$ref", Str(ref))]);
    if r in Refs(holder) {
      var i := RefSource(holder, r);
    }
    RefsOfEntry(holder, 0, ref);
    OneRef("200", holder, r);
    OneRef("responses", Mapping([Entry("200", holder)]), r);
  }

  lemma AnswersIsWellFormed(ref: string)
    ensures WellFormedOp(Answers(ref)) && Keys(Answers(ref).entries) == {"responses"}
  {
    assert Answers(ref).entries[0] in Answers(ref).entries;
    assert |"responses"| != |"parameters"|;
  }

  lemma SetTwice(n: Node, j: string, s: string, k: string, t: string, r: string)
    requires n.Mapping? && j !in Keys(n.entries) && k !in Keys(n.entries) && j != k && j != "$ref" && k != "$ref"
    ensures var m := MapSet(MapSet(n, j, Str(s)), k, Str(t));
            m.Mapping? && Keys(m.entries) == Keys(n.entries) + {j, k} && (r in Refs(m) <==> r in Refs(n))
  {
    MapSetKeys(n, j, Str(s));
    MapSetKeys(MapSet(n, j, Str(s)), k, Str(t));
    SetKeepsRefs(n, j, s, r);
    SetKeepsRefs(MapSet(n, j, Str(s)), k, t, r);
  }

  lemma StampsDiffer()
    ensures "responses" !in STAMPS && "$ref" !in STAMPS
    ensures "operationId" != "x-nina-backend"
    ensures "x-nina-upstream-path" !in {"responses", "operationId", "x-nina-backend", "x-nina-upstream-operation-id"}
    ensures "x-nina-upstream-operation-id" !in {"responses", "operationId", "x-nina-backend"}
  {
    assert |"$ref"| < |"responses"| < |"operationId"| < |"x-nina-backend"|;
    assert |"x-nina-backend"| < |"x-nina-upstream-path"| < |"x-nina-upstream-operation-id"|;
  }

  lemma CallRefs(src: Source, path: string, ref: string, r: string)
    ensures WellFormedOp(Answers(ref))
    ensures r in Refs(Prepared(Call(src, path, ref))) <==> r == ref
  {
    AnswersIsWellFormed(ref);
    var e := Call(src, path, ref);
    StampsDiffer();
    SetTwice(Answers(ref), "operationId", e.operationId, "x-nina-backend", src.backend, r);
    var two := MapSet(MapSet(Answers(ref), "operationId", Str(e.operationId)), "x-nina-backend", Str(src.backend));
    SetTwice(two, "x-nina-upstream-path", path, "x-nina-upstream-operation-id", "get", r);
    AnswerRefs(ref, r);
  }

  /** The one component such an operation names. */
  lemma CallTargets(src: Source, path: string, id: CompId, tail: string)
    requires WellFormed(id)
    ensures WellFormedOp(Answers(RefText(id, tail)))
    ensures var n := Prepared(Call(src, path, RefText(id, tail)));
            M.Targets(src.spec, n) == {M.Key(src.spec, id)} && RefText(id, tail) in Refs(n)
  {
    var ref := RefText(id, tail);
    CallRefs(src, path, ref, ref);
    ParseRefText(id, tail);
    var n := Prepared(Call(src, path, ref));
    forall k | k in M.Targets(src.spec, n) ensures k == M.Key(src.spec, id) {
      var r :| r in Refs(n) && ParseLocalRef(r).Some? && k == M.Key(src.spec, ParseLocalRef(r).value.id);
      CallRefs(src, path, ref, r);
    }
    M.TargetOf(src.spec, n, ref);
  }

  predicate IsCall(e: ExposedOp, id: CompId, tail: string) {
    e == Call(e.source, e.gatewayPath, RefText(id, tail)) && WellFormed(id)
  }

  lemma GetIsListed()
    ensures ToLower("GET") in HTTP_METHODS
  {
    assert "GET"[1..] == "ET" && "ET"[1..] == "T" && "T"[1..] == "";
    assert ToLower("T") == "t" && ToLower("ET") == "et";
    assert ToLower("GET") == "get";
  }

  lemma CallBuilds(specs: M.Specs, src: Source, path: string, id: CompId, tail: string)
    requires WellFormed(id) && src.spec in specs && id in specs[src.spec]
    ensures WellFormedOp(Answers(RefText(id, tail)))
    ensures M.RefsGood(specs, src.spec, Prepared(Call(src, path, RefText(id, tail))))
  {
    var ref := RefText(id, tail);
    ParseRefText(id, tail);
    AnswersIsWellFormed(ref);
    forall r | r in Refs(Prepared(Call(src, path, ref))) ensures M.RefGood(specs[src.spec], r) {
      CallRefs(src, path, ref, r);
    }
  }

  lemma CallLoads(specs: M.Specs, e: ExposedOp, id: CompId, tail: string)
    requires IsCall(e, id, tail) && e.source.spec in specs && id in specs[e.source.spec]
    ensures Loaded(specs, e) && Buildable(specs, JobOf(e))
    ensures M.Targets(JobOf(e).spec, JobOf(e).node) == {M.Key(e.source.spec, id)}
    ensures RefText(id, tail) in Refs(JobOf(e).node) && ParseLocalRef(RefText(id, tail)) == Some(Ref(id, tail))
  {
    CallTargets(e.source, e.gatewayPath, id, tail);
    ParseRefText(id, tail);
    GetIsListed();
    CallBuilds(specs, e.source, e.gatewayPath, id, tail);
  }

  /** Nothing reachable refers any further. */
  predicate Leaves(specs: M.Specs, keys: set<Key>) {
    forall k {:trigger M.Known(specs, k)} | k in keys :: M.Known(specs, k) && Refs(M.NodeOf(specs, k)) == []
  }

  lemma LeafRefersNowhere(specs: M.Specs, keys: set<Key>, j: Key, t: Key)
    requires Leaves(specs, keys) && j in keys
    ensures !M.RefersTo(specs, j, t)
  {
    assert M.Known(specs, j);
  }

  lemma LeavesReach(specs: M.Specs, keys: set<Key>)
    requires Leaves(specs, keys)
    ensures M.ExactlyReachable(specs, keys, keys)
  {
    M.RootsReachable(specs, keys);
    forall j, t | j in keys ensures !M.RefersTo(specs, j, t) {
      LeafRefersNowhere(specs, keys, j, t);
    }
    forall k | M.Reachable(specs, keys, k) ensures k in keys {
      M.ClosedHoldsReachable(specs, keys, keys, k);
    }
  }

  lemma LeavesMerge(specs: M.Specs, jobs: seq<Job>)
    requires Distinct(jobs) && Leaves(specs, Roots(jobs))
    requires forall i | 0 <= i < |jobs| :: Buildable(specs, jobs[i])
    ensures Mergeable(specs, jobs)
    ensures M.ExactlyReachable(specs, Roots(jobs), Roots(jobs))
  {
    LeavesReach(specs, Roots(jobs));
    forall k | M.Reachable(specs, Roots(jobs), k)
      ensures M.Known(specs, k) && M.RefsGood(specs, k.spec, M.NodeOf(specs, k))
    {
      assert k in Roots(jobs);
    }
  }

  lemma SameReach(specs: M.Specs, roots: set<Key>, a: set<Key>, b: set<Key>)
    requires M.ExactlyReachable(specs, roots, a) && M.ExactlyReachable(specs, roots, b)
    ensures a == b
  {
    forall k ensures k in a <==> k in b {
      assert k in a <==> M.Reachable(specs, roots, k);
    }
  }

  lemma PublishedKeys(specs: M.Specs, jobs: seq<Job>, opt: Options, doc: Document, names: Names, keys: set<Key>)
    requires M.ExactlyReachable(specs, Roots(jobs), keys)
    ensures Published(specs, jobs, opt, doc, names) ==> names.first.Keys == keys
  {
    if Published(specs, jobs, opt, doc, names) {
      SameReach(specs, Roots(jobs), names.first.Keys, keys);
    }
  }

  lemma FirstIsIn<T>(s: seq<T>)
    ensures |s| > 0 ==> s[0] in s
  {
  }

  lemma NoRefs(n: Node)
    requires forall r :: r !in Refs(n)
    ensures Refs(n) == []
  {
    FirstIsIn(Refs(n));
  }

  lemma OneCall(specs: M.Specs, e: ExposedOp, id: CompId, tail: string)
    requires IsCall(e, id, tail) && e.source.spec in specs && id in specs[e.source.spec]
    requires Refs(specs[e.source.spec][id]) == []
    ensures AllLoaded(specs, [e]) && Mergeable(specs, Jobs(specs, [e]))
    ensures Jobs(specs, [e]) == [JobOf(e)]
    ensures M.ExactlyReachable(specs, Roots(Jobs(specs, [e])), {M.Key(e.source.spec, id)})
  {
    CallLoads(specs, e, id, tail);
    RootsPush([], JobOf(e));
    assert [] + [JobOf(e)] == [JobOf(e)] == Jobs(specs, [e]);
    LeavesMerge(specs, Jobs(specs, [e]));
  }

  lemma TwoRoots(a: Job, b: Job)
    ensures Roots([a, b]) == M.Targets(a.spec, a.node) + M.Targets(b.spec, b.node)
  {
    RootsPush([], a);
    RootsPush([a], b);
    assert [] + [a] == [a] && [a] + [b] == [a, b];
  }

  lemma TwoJobs(specs: M.Specs, a: ExposedOp, b: ExposedOp)
    requires Loaded(specs, a) && Loaded(specs, b)
    ensures AllLoaded(specs, [a, b]) && Jobs(specs, [a, b]) == [JobOf(a), JobOf(b)]
    ensures a.gatewayPath != b.gatewayPath ==> Distinct(Jobs(specs, [a, b]))
  {
  }

  lemma TwoCalls(specs: M.Specs, a: ExposedOp, b: ExposedOp, id: CompId, s: string, t: string)
    requires IsCall(a, id, s) && a.source.spec in specs && id in specs[a.source.spec]
    requires IsCall(b, id, t) && b.source.spec in specs && id in specs[b.source.spec]
    requires Leaves(specs, {M.Key(a.source.spec, id), M.Key(b.source.spec, id)})
    requires a.gatewayPath != b.gatewayPath
    ensures AllLoaded(specs, [a, b]) && Loaded(specs, a) && Loaded(specs, b)
    ensures Mergeable(specs, Jobs(specs, [a, b]))
    ensures M.ExactlyReachable(specs, Roots(Jobs(specs, [a, b])), {M.Key(a.source.spec, id), M.Key(b.source.spec, id)})
  {
    CallLoads(specs, a, id, s);
    CallLoads(specs, b, id, t);
    TwoJobs(specs, a, b);
    LeafPair(specs, JobOf(a), JobOf(b), id);
  }

  lemma LeafPair(specs: M.Specs, x: Job, y: Job, id: CompId)
    requires Buildable(specs, x) && M.Targets(x.spec, x.node) == {M.Key(x.spec, id)}
    requires Buildable(specs, y) && M.Targets(y.spec, y.node) == {M.Key(y.spec, id)}
    requires Distinct([x, y]) && Leaves(specs, {M.Key(x.spec, id), M.Key(y.spec, id)})
    ensures Mergeable(specs, [x, y]) && M.ExactlyReachable(specs, Roots([x, y]), {M.Key(x.spec, id), M.Key(y.spec, id)})
  {
    TwoRoots(x, y);
    assert Roots([x, y]) == {M.Key(x.spec, id), M.Key(y.spec, id)};
    LeavesMerge(specs, [x, y]);
  }

  // ---- a place inside a component that collapses ----

  /** A published name is longer than the name it comes from where every namespace says
      something. */
  lemma NameIsLonger(jobs: seq<Job>, taken: set<CompId>, k: Key, published: string)
    requires NamedBy(jobs, taken, k, published) && forall j | j in jobs :: j.namespace != ""
    ensures |published| > |k.id.name|
  {
    var j, n :| j in jobs && j.spec == k.spec && M.IsNth(taken, j.namespace, k.id, published, n);
    assert |Capitalise(k.id.name)| == |k.id.name|;
  }

  lemma TwinsFree(jobs: seq<Job>, names: Names, id: CompId)
    requires FirstRight(jobs, names) && forall j | j in jobs :: j.namespace != ""
    requires forall k | k in names.first :: k.id == id
    ensures PlainFree(names.first)
  {
    assert |Capitalise(id.name)| == |id.name|;
    forall k | k in names.first ensures names.first[k] != CompId(id.section, Capitalise(id.name)) {
      NameIsLonger(jobs, names.first.Values, k, names.first[k].name);
    }
  }

  lemma TwinsFreeIn(specs: M.Specs, jobs: seq<Job>, opt: Options, doc: Document, names: Names, id: CompId)
    requires forall j | j in jobs :: j.namespace != ""
    requires forall k | k in names.first :: k.id == id
    ensures Published(specs, jobs, opt, doc, names) ==> PlainFree(names.first)
  {
    if Published(specs, jobs, opt, doc, names) {
      TwinsFree(jobs, names, id);
    }
  }

  lemma TwinsCollapse(specs: M.Specs, a: Key, b: Key)
    requires M.Known(specs, a) && M.Known(specs, b) && a.id == b.id && a.spec != b.spec
             && specs[a.spec] == specs[b.spec]
    ensures Collapses(specs, {a, b}, a)
  {
    assert SamePrint(specs, b, a) && SamePrint(specs, a, a);
  }

  /** With un-namespaced slots free a slot given up stays empty. */
  lemma NotRetaken(specs: Specs, jobs: seq<Job>, opt: Options, names: Names, k: Key, j: Key)
    requires NamesWork(specs, jobs, opt, names) && opt.dedupe && PlainFree(names.first)
    requires Has(names, k) && names.final[k] != names.first[k] && j in names.final
    ensures names.final[j] != names.first[k]
  {
    assert CollapsedRight(specs, names, j);
    assert Unprefixed(j) !in names.first.Values by {
      assert Unprefixed(j) == Unprefixed(j);
    }
  }

  /** With dedupe on, a reference to a place inside a component that collapses dangles, whatever
      else is merged, as long as un-namespaced slots are free. */
  lemma CollapsedTailDangles(specs: M.Specs, jobs: seq<Job>, opt: Options, doc: Document, names: Names,
                             j: Job, q: string, ref: Ref)
    requires Published(specs, jobs, opt, doc, names) && opt.dedupe && PlainFree(names.first)
    requires j in jobs && q in Refs(j.node) && ParseLocalRef(q) == Some(ref) && ref.tail != ""
    requires M.Key(j.spec, ref.id) in names.first && Collapses(specs, names.first.Keys, M.Key(j.spec, ref.id))
    requires names.first[M.Key(j.spec, ref.id)] !in SchemeIds(opt.securitySchemes)
    ensures !NoDangling(doc, opt.securitySchemes)
  {
    var k := M.Key(j.spec, ref.id);
    assert CollapsedRight(specs, names, k);
    forall i | i in names.final ensures names.final[i] != names.first[k] {
      NotRetaken(specs, jobs, opt, names, k, i);
    }
    assert !RefLands(names, opt.securitySchemes, j.spec, q);
    assert !NodeLands(names, opt.securitySchemes, j.spec, j.node);
  }

  /** Two backends with the same document and one operation each: the first answers with a
      part of a component, the second with the whole of it. */
  predicate Twins(specs: M.Specs, a: ExposedOp, b: ExposedOp, id: CompId, tail: string) {
    && IsCall(a, id, tail) && IsCall(b, id, "") && tail != ""
    && a.source.spec in specs && b.source.spec in specs && a.source.spec != b.source.spec
    && specs[a.source.spec] == specs[b.source.spec] && id in specs[a.source.spec]
    && Refs(specs[a.source.spec][id]) == [] && a.gatewayPath != b.gatewayPath
    && a.source.namespace != "" && b.source.namespace != ""
  }

  function TwinKeys(a: ExposedOp, b: ExposedOp, id: CompId): set<Key> {
    {M.Key(a.source.spec, id), M.Key(b.source.spec, id)}
  }

  lemma TwinsMerge(specs: M.Specs, a: ExposedOp, b: ExposedOp, id: CompId, tail: string)
    requires Twins(specs, a, b, id, tail)
    ensures AllLoaded(specs, [a, b]) && Mergeable(specs, Jobs(specs, [a, b]))
    ensures M.ExactlyReachable(specs, Roots(Jobs(specs, [a, b])), TwinKeys(a, b, id))
    ensures Collapses(specs, TwinKeys(a, b, id), M.Key(a.source.spec, id))
  {
    TwoCalls(specs, a, b, id, tail, "");
    TwinsCollapse(specs, M.Key(a.source.spec, id), M.Key(b.source.spec, id));
  }

  lemma TwinJobs(specs: M.Specs, a: ExposedOp, b: ExposedOp, id: CompId, tail: string) returns (j: Job)
    requires Twins(specs, a, b, id, tail)
    ensures AllLoaded(specs, [a, b]) && j in Jobs(specs, [a, b]) && j.spec == a.source.spec
    ensures forall i | i in Jobs(specs, [a, b]) :: i.namespace != ""
    ensures RefText(id, tail) in Refs(j.node) && ParseLocalRef(RefText(id, tail)) == Some(Ref(id, tail))
  {
    CallLoads(specs, a, id, tail);
    CallLoads(specs, b, id, "");
    TwoJobs(specs, a, b);
    j := JobOf(a);
  }

  /** Such a merge goes through, and with dedupe on the document it publishes, whichever it is,
      has a reference that resolves to nothing: the part is still sought under a name given up
      in the collapse. */
  lemma TwinsDangle(specs: M.Specs, a: ExposedOp, b: ExposedOp, id: CompId, tail: string, doc: Document, names: Names)
    requires Twins(specs, a, b, id, tail)
    ensures AllLoaded(specs, [a, b]) && Mergeable(specs, Jobs(specs, [a, b]))
    ensures Published(specs, Jobs(specs, [a, b]), Options(true, map[]), doc, names) ==> !NoDangling(doc, map[])
  {
    TwinsMerge(specs, a, b, id, tail);
    var j := TwinJobs(specs, a, b, id, tail);
    TwinsDangleIn(specs, Jobs(specs, [a, b]), doc, names, j, RefText(id, tail), Ref(id, tail), TwinKeys(a, b, id));
  }

  lemma TwinsDangleIn(specs: M.Specs, jobs: seq<Job>, doc: Document, names: Names, j: Job, q: string, ref: Ref,
                      keys: set<Key>)
    requires j in jobs && q in Refs(j.node) && ParseLocalRef(q) == Some(ref) && ref.tail != ""
    requires (forall i | i in jobs :: i.namespace != "") && forall k | k in keys :: k.id == ref.id
    requires M.Key(j.spec, ref.id) in keys && Collapses(specs, keys, M.Key(j.spec, ref.id))
    requires M.ExactlyReachable(specs, Roots(jobs), keys)
    ensures Published(specs, jobs, Options(true, map[]), doc, names) ==> !NoDangling(doc, map[])
  {
    var opt := Options(true, map[]);
    if Published(specs, jobs, opt, doc, names) {
      PublishedKeys(specs, jobs, opt, doc, names, keys);
      TwinsFreeIn(specs, jobs, opt, doc, names, ref.id);
      CollapsedTailDangles(specs, jobs, opt, doc, names, j, q, ref);
    }
  }

  const ERROR := CompId("schemas", "Error")

  const ERROR_SCHEMA :=
    Mapping([Entry("properties", Mapping([Entry("code", Mapping([Entry("type", Str("integer"))]))]))])

  const ERROR_SPECS: M.Specs := map[0 := map[ERROR := ERROR_SCHEMA], 1 := map[ERROR := ERROR_SCHEMA]]

  const USERS_OP: ExposedOp := Call(Source(0, "users", "Users"), "/users", RefText(ERROR, "properties/code"))

  const ORDERS_OP: ExposedOp := Call(Source(1, "orders", "Orders"), "/orders", RefText(ERROR, ""))

  lemma ErrorSchemaIsLeaf()
    ensures Refs(ERROR_SCHEMA) == []
  {
    var code := Mapping([Entry("type", Str("integer"))]);
    forall r ensures r !in Refs(ERROR_SCHEMA) {
      OneRef("type", Str("integer"), r);
      OneRef("code", code, r);
      OneRef("properties", Mapping([Entry("code", code)]), r);
    }
    NoRefs(ERROR_SCHEMA);
  }

  lemma ErrorsAreTwins()
    ensures Twins(ERROR_SPECS, USERS_OP, ORDERS_OP, ERROR, "properties/code")
  {
    ErrorSchemaIsLeaf();
    assert |"/users"| != |"/orders"|;
  }

  /** Two equal error schemas, one of them referred to by its code: the merge goes through and
      that reference dangles. */
  lemma TailDangles(doc: Document, names: Names)
    ensures AllLoaded(ERROR_SPECS, [USERS_OP, ORDERS_OP])
    ensures Mergeable(ERROR_SPECS, Jobs(ERROR_SPECS, [USERS_OP, ORDERS_OP]))
    ensures Published(ERROR_SPECS, Jobs(ERROR_SPECS, [USERS_OP, ORDERS_OP]), Options(true, map[]), doc, names) ==>
              !NoDangling(doc, map[])
  {
    ErrorsAreTwins();
    TwinsDangle(ERROR_SPECS, USERS_OP, ORDERS_OP, ERROR, "properties/code", doc, names);
  }

  // ---- one schema in two key orders ----

  /** Two backends whose components of one id refer to nothing and differ in key order alone. */
  predicate ReorderedTwins(specs: M.Specs, a: ExposedOp, b: ExposedOp, id: CompId) {
    && IsCall(a, id, "") && IsCall(b, id, "") && a.gatewayPath != b.gatewayPath
    && a.source.spec in specs && b.source.spec in specs && a.source.spec != b.source.spec
    && id in specs[a.source.spec] && id in specs[b.source.spec]
    && Refs(specs[a.source.spec][id]) == [] && Refs(specs[b.source.spec][id]) == []
    && Reordered(specs[a.source.spec][id], specs[b.source.spec][id], map[id := id])
    && a.source.namespace != "" && b.source.namespace != ""
  }

  /** Both are published in one place. */
  predicate PublishedOnce(names: Names, j: Key, k: Key, id: CompId) {
    j in names.final && k in names.final && names.final[j] == names.final[k] == id
  }

  lemma PublishedTwinsShare(specs: M.Specs, jobs: seq<Job>, opt: Options, doc: Document, names: Names, j: Key, k: Key)
    requires names.first.Keys == {j, k} && j != k && j.id == k.id && opt.dedupe && SameStructure(specs, j, k)
    ensures NamesWork(specs, jobs, opt, names) && PlainFree(names.first) ==>
            PublishedOnce(names, j, k, CompId(k.id.section, Capitalise(k.id.name)))
  {
    assert j in names.first.Keys && k in names.first.Keys;
    assert forall i | i in names.first.Keys && i != k :: i == j;
    TwinsShare(specs, jobs, opt, names, j, k);
  }

  lemma ReorderedShare(specs: M.Specs, jobs: seq<Job>, opt: Options, a: ExposedOp, b: ExposedOp, id: CompId,
                       doc: Document, names: Names)
    requires ReorderedTwins(specs, a, b, id) && opt.dedupe && forall i | i in jobs :: i.namespace != ""
    requires M.ExactlyReachable(specs, Roots(jobs), TwinKeys(a, b, id))
    ensures Published(specs, jobs, opt, doc, names) ==>
            PublishedOnce(names, M.Key(a.source.spec, id), M.Key(b.source.spec, id),
                          CompId(id.section, Capitalise(id.name)))
  {
    ReorderedSame(specs, a, b, id);
    PublishedShare(specs, jobs, opt, doc, names, M.Key(a.source.spec, id), M.Key(b.source.spec, id));
  }

  lemma ReorderedSame(specs: M.Specs, a: ExposedOp, b: ExposedOp, id: CompId)
    requires ReorderedTwins(specs, a, b, id)
    ensures SameStructure(specs, M.Key(a.source.spec, id), M.Key(b.source.spec, id))
  {
    assert PairsUp(specs[a.source.spec], specs[b.source.spec], map[id := id]);
  }

  lemma TwoTwinsFree(jobs: seq<Job>, names: Names, j: Key, k: Key)
    requires (forall i | i in jobs :: i.namespace != "") && j.id == k.id && names.first.Keys == {j, k}
    ensures FirstRight(jobs, names) ==> PlainFree(names.first)
  {
    forall i | i in names.first ensures i.id == k.id {
      assert i in names.first.Keys;
    }
    if FirstRight(jobs, names) {
      TwinsFree(jobs, names, k.id);
    }
  }

  lemma PublishedShare(specs: M.Specs, jobs: seq<Job>, opt: Options, doc: Document, names: Names, j: Key, k: Key)
    requires M.ExactlyReachable(specs, Roots(jobs), {j, k}) && j != k && j.id == k.id && SameStructure(specs, j, k)
    requires opt.dedupe && forall i | i in jobs :: i.namespace != ""
    ensures Published(specs, jobs, opt, doc, names) ==>
            PublishedOnce(names, j, k, CompId(k.id.section, Capitalise(k.id.name)))
  {
    PublishedKeys(specs, jobs, opt, doc, names, {j, k});
    if names.first.Keys == {j, k} {
      TwoTwinsFree(jobs, names, j, k);
      PublishedTwinsShare(specs, jobs, opt, doc, names, j, k);
    }
  }

  /** The merge goes through and both end up as one component, without a namespace. */
  lemma ReorderedCollapse(specs: M.Specs, a: ExposedOp, b: ExposedOp, id: CompId, opt: Options,
                          doc: Document, names: Names)
    requires ReorderedTwins(specs, a, b, id) && opt.dedupe
    ensures AllLoaded(specs, [a, b]) && Mergeable(specs, Jobs(specs, [a, b]))
    ensures Published(specs, Jobs(specs, [a, b]), opt, doc, names) ==>
            PublishedOnce(names, M.Key(a.source.spec, id), M.Key(b.source.spec, id),
                          CompId(id.section, Capitalise(id.name)))
  {
    TwoCalls(specs, a, b, id, "", "");
    TwoJobs(specs, a, b);
    ReorderedShare(specs, Jobs(specs, [a, b]), opt, a, b, id, doc, names);
  }

  const TYPED_FIRST := Mapping([Entry("type", Str("object")), Entry("title", Str("E"))])

  const TITLED_FIRST := Mapping([Entry("title", Str("E")), Entry("type", Str("object"))])

  const ORDER_SPECS: M.Specs := map[0 := map[ERROR := TYPED_FIRST], 1 := map[ERROR := TITLED_FIRST]]

  const USERS_CALL: ExposedOp := Call(Source(0, "users", "Users"), "/users", RefText(ERROR, ""))

  lemma OrdersDiffer()
    ensures Refs(TYPED_FIRST) == [] && Refs(TITLED_FIRST) == []
    ensures Reordered(TYPED_FIRST, TITLED_FIRST, map[ERROR := ERROR])
  {
    assert |"type"| < |"title"| && "$ref"[0] != 't';
    var es, fs := TYPED_FIRST.entries, TITLED_FIRST.entries;
    assert es[0] in es && es[1] in es && fs[0] in fs && fs[1] in fs;
    forall r ensures r !in Refs(TYPED_FIRST) && r !in Refs(TITLED_FIRST) {
      if r in Refs(TYPED_FIRST) {
        var i := RefSource(TYPED_FIRST, r);
      }
      if r in Refs(TITLED_FIRST) {
        var i := RefSource(TITLED_FIRST, r);
      }
    }
    NoRefs(TYPED_FIRST);
    NoRefs(TITLED_FIRST);
  }

  lemma OrdersAreTwins()
    ensures ReorderedTwins(ORDER_SPECS, USERS_CALL, ORDERS_OP, ERROR)
  {
    OrdersDiffer();
    assert |"/users"| != |"/orders"|;
  }

  lemma ErrorCapitalised()
    ensures Capitalise("Error") == "Error"
  {
    assert "Error" == ['E'] + "rror";
    CapitaliseFirst('E', "rror");
  }

  /** {type: object, title: E} in one document, {title: E, type: object} in the other: they are
      published once, as Error. */
  lemma ErrorsCollapse(doc: Document, names: Names)
    ensures AllLoaded(ORDER_SPECS, [USERS_CALL, ORDERS_OP])
    ensures Mergeable(ORDER_SPECS, Jobs(ORDER_SPECS, [USERS_CALL, ORDERS_OP]))
    ensures Published(ORDER_SPECS, Jobs(ORDER_SPECS, [USERS_CALL, ORDERS_OP]), Options(true, map[]), doc, names) ==>
            PublishedOnce(names, M.Key(0, ERROR), M.Key(1, ERROR), CompId("schemas", "Error"))
  {
    OrdersAreTwins();
    ErrorCapitalised();
    ReorderedCollapse(ORDER_SPECS, USERS_CALL, ORDERS_OP, ERROR, Options(true, map[]), doc, names);
  }

  // ---- a gateway scheme over an imported one ----

  /** Alone in its section a component gets the first candidate. */
  lemma AloneIsFirst(jobs: seq<Job>, names: Names, k: Key, namespace: string)
    requires FirstRight(jobs, names) && names.first.Keys == {k}
    requires forall j | j in jobs :: j.namespace == namespace
    ensures names.first[k] == CompId(k.id.section, namespace + Capitalise(k.id.name))
  {
    assert NamedBy(jobs, names.first.Values, k, names.first[k].name);
    var j, n :| j in jobs && j.spec == k.spec && M.IsNth(names.first.Values, j.namespace, k.id, names.first[k].name, n);
    if M.Candidate(namespace, k.id.name, 1) == M.Candidate(namespace, k.id.name, n) {
      M.CandidatesDiffer(namespace, k.id.name, 1, n);
    }
    FirstTaken(names.first.Values, namespace, k.id, names.first[k].name, n);
  }

  lemma FirstTaken(taken: set<CompId>, namespace: string, id: CompId, published: string, n: nat)
    requires M.IsNth(taken, namespace, id, published, n)
    ensures n == 1 || CompId(id.section, M.Candidate(namespace, id.name, 1)) in taken
  {
  }

  lemma AloneStays(specs: M.Specs, jobs: seq<Job>, opt: Options, names: Names, k: Key)
    requires NamesWork(specs, jobs, opt, names) && names.first.Keys == {k}
    requires names.first[k] != Unprefixed(k)
    ensures names.final == names.first
  {
    if opt.dedupe {
      assert PlainFree(names.first);
      assert CollapsedRight(specs, names, k);
    }
  }

  /** One operation that needs a security scheme of its backend, and a gateway scheme under the
      name that scheme is published with. */
  predicate Overlaid(specs: M.Specs, e: ExposedOp, id: CompId, schemes: map<string, Node>) {
    && IsCall(e, id, "") && e.source.spec in specs && id in specs[e.source.spec]
    && Refs(specs[e.source.spec][id]) == [] && e.source.namespace != "" && id.section == "securitySchemes"
    && OverlayName(e, id) in schemes
  }

  function OverlayName(e: ExposedOp, id: CompId): string {
    e.source.namespace + Capitalise(id.name)
  }

  lemma OverlaidNames(specs: M.Specs, jobs: seq<Job>, opt: Options, doc: Document, names: Names, k: Key,
                      namespace: string)
    requires M.ExactlyReachable(specs, Roots(jobs), {k}) && namespace != ""
    requires forall j | j in jobs :: j.namespace == namespace
    ensures Published(specs, jobs, opt, doc, names) ==>
              && HoldsExactly(doc.components, names.final, opt.securitySchemes)
              && k in names.final && names.final[k] == CompId(k.id.section, namespace + Capitalise(k.id.name))
  {
    if Published(specs, jobs, opt, doc, names) {
      PublishedKeys(specs, jobs, opt, doc, names, {k});
      AloneIsFirst(jobs, names, k, namespace);
      AloneStays(specs, jobs, opt, names, k);
    }
  }

  lemma SchemeIdIn(schemes: map<string, Node>, name: string)
    requires name in schemes
    ensures CompId("securitySchemes", name) in SchemeIds(schemes)
  {
  }

  /** The merge goes through, deduping or not, and the imported scheme, though it was given a
      name of its own, reads as the gateway's: it keeps its meaning exactly when the two say
      the same. */
  lemma SchemeLiesOver(specs: M.Specs, e: ExposedOp, id: CompId, opt: Options, doc: Document, names: Names)
    requires Overlaid(specs, e, id, opt.securitySchemes)
    ensures AllLoaded(specs, [e]) && Mergeable(specs, Jobs(specs, [e]))
    ensures Published(specs, Jobs(specs, [e]), opt, doc, names) ==>
              (ComponentMeans(specs, doc.components, names.final, M.Key(e.source.spec, id)) <==>
                 SameMeaning(doc.components, opt.securitySchemes[OverlayName(e, id)],
                             specs[e.source.spec], specs[e.source.spec][id]))
  {
    OneCall(specs, e, id, "");
    var jobs, k := Jobs(specs, [e]), M.Key(e.source.spec, id);
    OverlaidNames(specs, jobs, opt, doc, names, k, e.source.namespace);
    if Published(specs, jobs, opt, doc, names) {
      SchemeIdIn(opt.securitySchemes, OverlayName(e, id));
      HiddenShowsScheme(specs, doc.components, names, opt.securitySchemes, k);
    }
  }

  const KEY_ID := CompId("securitySchemes", "Key")

  function Scheme(kind: string): Node {
    Mapping([Entry("type", Str(kind))])
  }

  const SCHEME_SPECS: M.Specs := map[0 := map[KEY_ID := Scheme("http")]]

  const SECURED_OP: ExposedOp := Call(Source(0, "users", "Users"), "/users", RefText(KEY_ID, ""))

  const GATEWAY_SCHEMES: map<string, Node> := map["Users" + Capitalise("Key") := Scheme("apiKey")]

  lemma SchemeIsLeaf(kind: string)
    ensures Refs(Scheme(kind)) == []
  {
    forall r ensures r !in Refs(Scheme(kind)) {
      OneRef("type", Str(kind), r);
    }
    NoRefs(Scheme(kind));
  }

  lemma SchemeUnfolds(doc: Doc, kind: string)
    ensures Unfold(doc, Scheme(kind), 0) == Object(map["type" := Leaf("!!str", kind)])
  {
    var e := Entry("type", Str(kind));
    assert Scheme(kind).entries == [e] && Keys([e]) == {"type"};
    assert |"type"| == |"$ref"| && "type"[0] != "$ref"[0];
    assert Keys([e]) == {e.key} by {
      assert e in [e];
    }
    IndexIs([e], e.key, 0);
    assert UnfoldEntry(doc, e, 0) == Leaf("!!str", kind);
    assert UnfoldFields(doc, [e], 0) == map[e.key := Leaf("!!str", kind)];
  }

  lemma SchemesDiffer(doc: Doc, src: Doc, kind: string, other: string)
    requires kind != other
    ensures !SameMeaning(doc, Scheme(kind), src, Scheme(other))
  {
    SchemeUnfolds(doc, kind);
    SchemeUnfolds(src, other);
    assert map["type" := Leaf("!!str", kind)]["type"] != map["type" := Leaf("!!str", other)]["type"];
  }

  lemma SecuredIsCall()
    ensures IsCall(SECURED_OP, KEY_ID, "") && SECURED_OP.source == Source(0, "users", "Users")
  {
  }

  lemma SecuredIsOverlaid()
    ensures Overlaid(SCHEME_SPECS, SECURED_OP, KEY_ID, GATEWAY_SCHEMES)
    ensures GATEWAY_SCHEMES[OverlayName(SECURED_OP, KEY_ID)] == Scheme("apiKey")
  {
    SchemeIsLeaf("http");
    SecuredIsCall();
  }

  /** A backend's bearer scheme under a gateway key scheme of the same published name: the
      document says the latter. */
  lemma SchemeHidden(dedupe: bool, doc: Document, names: Names)
    ensures AllLoaded(SCHEME_SPECS, [SECURED_OP]) && Mergeable(SCHEME_SPECS, Jobs(SCHEME_SPECS, [SECURED_OP]))
    ensures Published(SCHEME_SPECS, Jobs(SCHEME_SPECS, [SECURED_OP]), Options(dedupe, GATEWAY_SCHEMES), doc, names) ==>
              !ComponentMeans(SCHEME_SPECS, doc.components, names.final, M.Key(0, KEY_ID))
  {
    SecuredIsOverlaid();
    SchemeLiesOver(SCHEME_SPECS, SECURED_OP, KEY_ID, Options(dedupe, GATEWAY_SCHEMES), doc, names);
    KindsDiffer();
    SchemesDiffer(doc.components, SCHEME_SPECS[0], "apiKey", "http");
  }

  lemma KindsDiffer()
    ensures "apiKey" != "http"
  {
    assert |"apiKey"| != |"http"|;
  }

  // ---- an unlisted section ----

  /** A reference to a component whose section the document does not carry dangles. */
  lemma UnlistedDangles(specs: M.Specs, jobs: seq<Job>, opt: Options, doc: Document, names: Names, j: Job, q: string)
    requires j in jobs && q in Refs(j.node)
    requires ParseLocalRef(q).Some? && ParseLocalRef(q).value.id.section !in SECTIONS
    ensures Published(specs, jobs, opt, doc, names) ==> !NoDangling(doc, opt.securitySchemes)
  {
    if Published(specs, jobs, opt, doc, names) {
      assert !RefLands(names, opt.securitySchemes, j.spec, q);
      assert !NodeLands(names, opt.securitySchemes, j.spec, j.node);
    }
  }

  const JSON_ID := CompId("mediaTypes", "Json")

  const SECTION_SPECS: M.Specs := map[0 := map[JSON_ID := Str("application/json")]]

  const JSON_OP: ExposedOp := Call(Source(0, "users", "Users"), "/users", RefText(JSON_ID, ""))

  lemma MediaTypesUnlisted()
    ensures "mediaTypes" !in SECTIONS
  {
    assert |"mediaTypes"| == |"parameters"| && "mediaTypes"[0] != "parameters"[0];
  }

  /** The merge goes through, deduping or not, and drops a component an operation refers to. */
  lemma SectionDropped(dedupe: bool, doc: Document, names: Names)
    ensures AllLoaded(SECTION_SPECS, [JSON_OP]) && Mergeable(SECTION_SPECS, Jobs(SECTION_SPECS, [JSON_OP]))
    ensures Published(SECTION_SPECS, Jobs(SECTION_SPECS, [JSON_OP]), Options(dedupe, map[]), doc, names) ==>
            !NoDangling(doc, map[])
  {
    OneCall(SECTION_SPECS, JSON_OP, JSON_ID, "");
    CallLoads(SECTION_SPECS, JSON_OP, JSON_ID, "");
    MediaTypesUnlisted();
    UnlistedDangles(SECTION_SPECS, Jobs(SECTION_SPECS, [JSON_OP]), Options(dedupe, map[]), doc, names,
                    JobOf(JSON_OP), RefText(JSON_ID, ""));
  }

  /** A section of the Components Object, section 4.8.7 of OpenAPI 3.1.0. */
  predicate Standard(section: string) {
    || section == "schemas" || section == "responses" || section == "parameters" || section == "examples"
    || section == "requestBodies" || section == "headers" || section == "securitySchemes" || section == "links"
    || section == "callbacks" || section == "pathItems"
  }

  lemma StandardIsListed(section: string)
    ensures section in SECTIONS <==> Standard(section)
  {
  }

  lemma WholeLands(names: Names, j: Job, id: CompId)
    requires (forall r | r in Refs(j.node) :: r == RefText(id, "")) && RefText(id, "") in Refs(j.node)
    requires WellFormed(id) && Has(names, M.Key(j.spec, id))
    ensures NodeLands(names, map[], j.spec, j.node) <==> id.section in SECTIONS
  {
    ParseRefText(id, "");
    var q := RefText(id, "");
    assert RefLands(names, map[], j.spec, q) <==> id.section in SECTIONS;
  }

  lemma OneJobLands(specs: M.Specs, j: Job, id: CompId, names: Names)
    requires (forall r | r in Refs(j.node) :: r == RefText(id, "")) && RefText(id, "") in Refs(j.node)
    requires WellFormed(id) && names.first.Keys == names.final.Keys == {M.Key(j.spec, id)}
    requires M.Known(specs, M.Key(j.spec, id)) && Refs(specs[j.spec][id]) == []
    ensures AllLand(specs, [j], names, map[]) <==> id.section in SECTIONS
  {
    assert M.Key(j.spec, id) in names.first.Keys && M.Key(j.spec, id) in names.final.Keys;
    WholeLands(names, j, id);
    assert j in [j];
    forall k | Shown(names, map[], k) && M.Known(specs, k) ensures NodeLands(names, map[], k.spec, M.NodeOf(specs, k)) {
      assert k in names.first.Keys;
    }
  }

  lemma CallNames(specs: M.Specs, e: ExposedOp, id: CompId)
    requires IsCall(e, id, "")
    ensures WellFormedOp(e.op.node) && forall r :: r in Refs(JobOf(e).node) <==> r == RefText(id, "")
  {
    AnswersIsWellFormed(RefText(id, ""));
    forall r ensures r in Refs(JobOf(e).node) <==> r == RefText(id, "") {
      CallRefs(e.source, e.gatewayPath, RefText(id, ""), r);
    }
  }

  /** An operation that refers to one component, as a whole: the merge goes through and the
      reference resolves exactly when the component's section is a standard one. */
  lemma SectionsExactly(specs: M.Specs, e: ExposedOp, id: CompId, dedupe: bool, doc: Document, names: Names)
    requires IsCall(e, id, "") && e.source.spec in specs && id in specs[e.source.spec]
    requires Refs(specs[e.source.spec][id]) == []
    ensures AllLoaded(specs, [e]) && Mergeable(specs, Jobs(specs, [e]))
    ensures Published(specs, Jobs(specs, [e]), Options(dedupe, map[]), doc, names) ==>
            (NoDangling(doc, map[]) <==> Standard(id.section))
  {
    OneCall(specs, e, id, "");
    CallNames(specs, e, id);
    PublishedKeys(specs, Jobs(specs, [e]), Options(dedupe, map[]), doc, names, {M.Key(e.source.spec, id)});
    if names.first.Keys == names.final.Keys == {M.Key(e.source.spec, id)} {
      OneJobLands(specs, JobOf(e), id, names);
    }
    StandardIsListed(id.section);
  }
}
