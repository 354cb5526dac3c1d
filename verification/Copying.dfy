/** Copying the exposed operations: each (path, method) slot is claimed once, and the
    components the operations name are imported. */
module Copying {
  import opened Wrappers
  import opened Text
  import opened JsonPointer
  import opened Nodes
  import opened Operations
  import opened Arrange
  import M = Merger
  import D = Dedupe
  import P = Publishing

  type Specs = M.Specs
  type Key = M.Key

  /** One published (path, method) pair; methods are lower-case keys of the path item. */
  datatype Slot = Slot(path: string, verb: string)

  datatype Claim = Claim(node: Node, who: string)

  const HTTP_METHODS: set<string> :=
    {"get", "put", "post", "delete", "options", "head", "patch", "trace"}

  /** A method of the Path Item Object, section 4.8.9 of OpenAPI 3.1.0. */
  lemma MethodsExactly(m: string)
    ensures m in HTTP_METHODS <==>
            m == "get" || m == "put" || m == "post" || m == "delete"
            || m == "options" || m == "head" || m == "patch" || m == "trace"
  {
  }

  /** What the merger is asked to publish: an operation's own content in its own spec, the
      namespace it is published under and the slot it goes to. `folds` says its path-level
      parameters are a list. */
  datatype Job = Job(spec: SpecId, namespace: string, node: Node, slot: Slot, folds: bool)

  function JobOf(e: ExposedOp): Job
    requires WellFormedOp(e.op.node)
  {
    Job(e.source.spec, e.source.namespace, Prepared(e), Slot(e.gatewayPath, ToLower(e.op.verb)), ParamsFold(e))
  }

  /** What a merge is asked to publish of an operation: at its gateway path, under its method in
      lower case, its own content with the path-level parameters it does not override by name
      and location in front, and the gateway's four keys. */
  lemma JobSays(e: ExposedOp, key: string)
    requires WellFormedOp(e.op.node) && forall p | p in PathParams(e) :: NulFree(p)
    ensures JobOf(e).spec == e.source.spec && JobOf(e).namespace == e.source.namespace
    ensures JobOf(e).slot == Slot(e.gatewayPath, ToLower(e.op.verb))
    ensures var n := JobOf(e).node;
      && WellFormedOp(n)
      && ParamList(n) == Filter(PathParams(e), p => !Overridden(p, ParamList(e.op.node))) + ParamList(e.op.node)
      && MapGet(n, "operationId") == Some(Str(e.operationId))
      && MapGet(n, "x-nina-backend") == Some(Str(e.source.backend))
      && MapGet(n, "x-nina-upstream-path") == Some(Str(e.op.path))
      && MapGet(n, "x-nina-upstream-operation-id") == Some(Str(e.op.operationId))
      && (Untouched(key) ==> MapGet(n, key) == MapGet(e.op.node, key))
  {
    PreparedSays(e, key);
  }

  /** What loading guarantees of an operation. */
  predicate Loaded(specs: Specs, e: ExposedOp) {
    e.source.spec in specs && WellFormedOp(e.op.node) && ToLower(e.op.verb) in HTTP_METHODS
  }

  predicate AllLoaded(specs: Specs, ops: seq<ExposedOp>) {
    forall i | 0 <= i < |ops| :: Loaded(specs, ops[i])
  }

  function Jobs(specs: Specs, ops: seq<ExposedOp>): seq<Job>
    requires AllLoaded(specs, ops)
  {
    seq(|ops|, i requires 0 <= i < |ops| => JobOf(ops[i]))
  }

  predicate Distinct(jobs: seq<Job>) {
    forall i, j | 0 <= i < j < |jobs| :: jobs[i].slot != jobs[j].slot
  }

  function Slots(jobs: seq<Job>): set<Slot> {
    set j | j in jobs :: j.slot
  }

  /** The components the exposed operations name directly. */
  function Roots(jobs: seq<Job>): set<Key> {
    if jobs == [] then {} else
      Roots(jobs[..|jobs| - 1]) + M.Targets(jobs[|jobs| - 1].spec, jobs[|jobs| - 1].node)
  }

  lemma {:induction false} RootsHave(jobs: seq<Job>, i: nat)
    requires i < |jobs|
    ensures M.Targets(jobs[i].spec, jobs[i].node) <= Roots(jobs)
  {
    if i < |jobs| - 1 {
      RootsHave(jobs[..|jobs| - 1], i);
    }
  }

  lemma {:induction false} RootFrom(jobs: seq<Job>, k: Key) returns (i: nat)
    requires k in Roots(jobs)
    ensures i < |jobs| && k in M.Targets(jobs[i].spec, jobs[i].node)
  {
    if k in Roots(jobs[..|jobs| - 1]) {
      i := RootFrom(jobs[..|jobs| - 1], k);
    } else {
      i := |jobs| - 1;
    }
  }

  /** An operation the merger can copy. */
  predicate Buildable(specs: Specs, j: Job) {
    j.folds && M.RefsGood(specs, j.spec, j.node)
  }

  /** Exactly when a merge succeeds: no slot claimed twice, and every reference met on the
      way is a local one that resolves. */
  ghost predicate Mergeable(specs: Specs, jobs: seq<Job>) {
    && Distinct(jobs)
    && (forall i {:trigger jobs[i]} | 0 <= i < |jobs| :: Buildable(specs, jobs[i]))
    && (forall k {:trigger M.Reachable(specs, Roots(jobs), k)} | M.Reachable(specs, Roots(jobs), k) ::
          M.Known(specs, k) && M.RefsGood(specs, k.spec, M.NodeOf(specs, k)))
  }

  // ---- the order of the operations ----

  ghost predicate SameJobs(a: seq<Job>, b: seq<Job>) {
    |a| == |b| && forall j {:trigger j in a} {:trigger j in b} :: j in a <==> j in b
  }

  lemma SameRoots(a: seq<Job>, b: seq<Job>)
    requires SameJobs(a, b)
    ensures Roots(a) <= Roots(b) && Slots(a) == Slots(b)
  {
    forall k | k in Roots(a) ensures k in Roots(b) {
      var i := RootFrom(a, k);
      assert a[i] in a;
      var x :| 0 <= x < |b| && b[x] == a[i];
      RootsHave(b, x);
    }
  }

  /** Slots are distinct exactly when there are as many as jobs. */
  lemma {:induction false} DistinctCount(jobs: seq<Job>)
    ensures |Slots(jobs)| <= |jobs|
    ensures Distinct(jobs) <==> |Slots(jobs)| == |jobs|
  {
    if jobs != [] {
      var init, last := jobs[..|jobs| - 1], jobs[|jobs| - 1];
      DistinctCount(init);
      assert jobs == init + [last];
      SlotsPush(init, last);
      if last.slot in Slots(init) {
        TakenTwice(jobs, |init|);
      } else if Distinct(init) {
        DistinctPush(init, last);
      } else {
        assert !Distinct(jobs);
      }
    }
  }

  lemma SameDistinct(a: seq<Job>, b: seq<Job>)
    requires SameJobs(a, b)
    ensures Distinct(a) <==> Distinct(b)
  {
    SameRoots(a, b);
    DistinctCount(a);
    DistinctCount(b);
  }

  lemma SameMergeable(specs: Specs, a: seq<Job>, b: seq<Job>)
    requires SameJobs(a, b) && Mergeable(specs, a)
    ensures Roots(a) == Roots(b) && Mergeable(specs, b)
  {
    SameRoots(a, b);
    SameRoots(b, a);
    SameDistinct(a, b);
    forall i | 0 <= i < |b| ensures Buildable(specs, b[i]) {
      assert b[i] in a;
      var x :| 0 <= x < |a| && a[x] == b[i];
      assert Buildable(specs, a[x]);
    }
  }

  lemma ArrangedLoads(specs: Specs, ops: seq<ExposedOp>)
    requires AllLoaded(specs, ops)
    ensures AllLoaded(specs, Arranged(ops))
  {
    var sorted := Arranged(ops);
    forall i | 0 <= i < |sorted| ensures Loaded(specs, sorted[i]) {
      ArrangedHas(ops, sorted[i]);
      var x :| 0 <= x < |ops| && ops[x] == sorted[i];
    }
  }

  lemma JobIn(specs: Specs, ops: seq<ExposedOp>, j: Job)
    requires AllLoaded(specs, ops)
    ensures j in Jobs(specs, ops) <==> exists e :: e in ops && Loaded(specs, e) && j == JobOf(e)
  {
    if j in Jobs(specs, ops) {
      var i :| 0 <= i < |ops| && Jobs(specs, ops)[i] == j;
      assert ops[i] in ops && Loaded(specs, ops[i]);
    }
    if e :| e in ops && Loaded(specs, e) && j == JobOf(e) {
      var i :| 0 <= i < |ops| && ops[i] == e;
      assert Jobs(specs, ops)[i] == j;
    }
  }

  /** Sorting changes neither what is copied nor whether it can be. */
  lemma ArrangedJobs(specs: Specs, ops: seq<ExposedOp>)
    requires AllLoaded(specs, ops)
    ensures AllLoaded(specs, Arranged(ops)) && SameJobs(Jobs(specs, Arranged(ops)), Jobs(specs, ops))
    ensures Distinct(Jobs(specs, Arranged(ops))) <==> Distinct(Jobs(specs, ops))
    ensures Mergeable(specs, Jobs(specs, Arranged(ops))) <==> Mergeable(specs, Jobs(specs, ops))
  {
    ArrangedLoads(specs, ops);
    var a, b := Jobs(specs, Arranged(ops)), Jobs(specs, ops);
    forall j ensures j in a <==> j in b {
      JobIn(specs, Arranged(ops), j);
      JobIn(specs, ops, j);
      forall e ensures e in Arranged(ops) <==> e in ops {
        ArrangedHas(ops, e);
      }
    }
    if ops != [] {
      ArrangedHas(ops, ops[0]);
    }
    SameDistinct(a, b);
    if Mergeable(specs, a) {
      SameMergeable(specs, a, b);
    }
    if Mergeable(specs, b) {
      SameMergeable(specs, b, a);
    }
  }

  // ---- copying the operations ----

  predicate ClaimRight(imported: map<Key, string>, pathOps: map<Slot, Claim>, j: Job) {
    && j.slot in pathOps
    && M.RefsImported(imported, j.spec, j.node)
    && pathOps[j.slot].node == M.Publish(imported, j.spec, j.node)
  }

  /** The state after copying all of `jobs`. */
  predicate Copied(specs: Specs, jobs: seq<Job>, s: M.State, pathOps: map<Slot, Claim>) {
    && Distinct(jobs) && pathOps.Keys == Slots(jobs)
    && s.imported.Keys == Roots(jobs)
    && M.AwaitedFrom(s, 0)
    && ClaimsRight(specs, jobs, s.imported, pathOps)
  }

  predicate ClaimsRight(specs: Specs, jobs: seq<Job>, imported: map<Key, string>, pathOps: map<Slot, Claim>) {
    && (forall j {:trigger ClaimRight(imported, pathOps, j)} | j in jobs :: ClaimRight(imported, pathOps, j))
    && (forall j {:trigger Buildable(specs, j)} | j in jobs :: Buildable(specs, j))
  }

  lemma ClaimsPush(specs: Specs, jobs: seq<Job>, before: map<Key, string>, after: map<Key, string>,
                   pathOps: map<Slot, Claim>, e: Job, c: Claim)
    requires ClaimsRight(specs, jobs, before, pathOps) && e.slot !in Slots(jobs) && Buildable(specs, e)
    requires M.NamesKept(before, after)
    requires M.RefsImported(after, e.spec, e.node) && c.node == M.Publish(after, e.spec, e.node)
    ensures ClaimsRight(specs, jobs + [e], after, pathOps[e.slot := c])
  {
    forall j | j in jobs ensures ClaimRight(after, pathOps[e.slot := c], j) {
      assert ClaimRight(before, pathOps, j);
      M.PublishStable(before, after, j.spec, j.node);
      assert j.slot in Slots(jobs);
    }
    forall j | j in jobs + [e] ensures ClaimRight(after, pathOps[e.slot := c], j) && Buildable(specs, j) {
      assert j != e ==> j in jobs;
    }
  }

  lemma CopyStep(specs: Specs, jobs: seq<Job>, s: M.State, t: M.State, pathOps: map<Slot, Claim>, e: Job, c: Claim)
    requires Copied(specs, jobs, s, pathOps) && e.slot !in pathOps && Buildable(specs, e)
    requires M.Consistent(specs, s) && M.Consistent(specs, t)
    requires M.Grown(s, t, M.Targets(e.spec, e.node))
    requires M.RefsImported(t.imported, e.spec, e.node) && c.node == M.Publish(t.imported, e.spec, e.node)
    ensures Copied(specs, jobs + [e], t, pathOps[e.slot := c])
  {
    RootsPush(jobs, e);
    SlotsPush(jobs, e);
    DistinctPush(jobs, e);
    ClaimsPush(specs, jobs, s.imported, t.imported, pathOps, e, c);
    AwaitGrown(specs, s, t, M.Targets(e.spec, e.node));
  }

  /** The sources met so far are those of the jobs. */
  predicate HasSource(jobs: seq<Job>, src: Source) {
    exists j :: j in jobs && j.spec == src.spec && j.namespace == src.namespace
  }

  predicate SourcesOf(jobs: seq<Job>, introduced: set<Source>) {
    forall src {:trigger HasSource(jobs, src)} | src in introduced :: HasSource(jobs, src)
  }

  lemma SourcesPush(jobs: seq<Job>, e: ExposedOp, introduced: set<Source>, more: set<Source>)
    requires WellFormedOp(e.op.node)
    requires SourcesOf(jobs, introduced) && more <= introduced + {e.source}
    ensures SourcesOf(jobs + [JobOf(e)], more)
  {
    forall src | src in more ensures HasSource(jobs + [JobOf(e)], src) {
      if src == e.source {
        assert JobOf(e) in jobs + [JobOf(e)];
      } else {
        assert HasSource(jobs, src);
        var j :| j in jobs && j.spec == src.spec && j.namespace == src.namespace;
        assert j in jobs + [JobOf(e)];
      }
    }
  }

  lemma RootsPush(jobs: seq<Job>, e: Job)
    ensures Roots(jobs + [e]) == Roots(jobs) + M.Targets(e.spec, e.node)
  {
    assert (jobs + [e])[..|jobs|] == jobs;
  }

  lemma DistinctPush(jobs: seq<Job>, e: Job)
    requires Distinct(jobs) && e.slot !in Slots(jobs)
    ensures Distinct(jobs + [e])
  {
    forall i, j | 0 <= i < j < |jobs + [e]| ensures (jobs + [e])[i].slot != (jobs + [e])[j].slot {
      assert jobs[i] in jobs;
    }
  }

  lemma SlotsPush(jobs: seq<Job>, e: Job)
    ensures Slots(jobs + [e]) == Slots(jobs) + {e.slot}
  {
    assert forall j :: j in jobs + [e] <==> j in jobs || j == e;
  }

  lemma AwaitGrown(specs: Specs, s: M.State, t: M.State, more: set<Key>)
    requires M.Consistent(specs, s) && M.Consistent(specs, t)
    requires M.AwaitedFrom(s, 0) && M.Grown(s, t, more)
    ensures M.AwaitedFrom(t, 0)
  {
    forall slot | slot in t.comps && t.comps[slot].node.None? ensures M.QueuedFrom(t.queue, 0, t.comps[slot].key) {
      var k := t.comps[slot].key;
      assert M.SlotHeld(specs, t, slot);
      if slot in s.comps {
        assert M.QueuedFrom(s.queue, 0, k);
        var j :| 0 <= j < |s.queue| && s.queue[j] == k;
        assert t.queue[j] == k;
      } else {
        assert k in s.imported ==> M.KeyHeld(specs, s, k);
        assert M.QueuedFrom(t.queue, |s.queue|, k);
      }
    }
  }

  /** A claimant, as a collision reports it. */
  function Who(e: ExposedOp): string {
    e.source.backend + "." + e.op.operationId
  }

  function SlotFor(e: ExposedOp): Slot {
    Slot(e.gatewayPath, ToLower(e.op.verb))
  }

  predicate ClaimedBy(ops: seq<ExposedOp>, n: nat, slot: Slot, who: string)
    requires n <= |ops|
  {
    exists i :: 0 <= i < n && SlotFor(ops[i]) == slot && Who(ops[i]) == who
  }

  /** Every slot names the operation that took it. */
  predicate ClaimsNamed(ops: seq<ExposedOp>, n: nat, pathOps: map<Slot, Claim>)
    requires n <= |ops|
  {
    forall slot {:trigger pathOps[slot]} | slot in pathOps :: ClaimedBy(ops, n, slot, pathOps[slot].who)
  }

  /** Two operations on one slot, the earlier one first. */
  predicate Clashes(ops: seq<ExposedOp>, e: M.Error) {
    exists i, j :: 0 <= i < j < |ops| && ClashAt(ops[i], ops[j], e)
  }

  predicate ClashAt(a: ExposedOp, b: ExposedOp, e: M.Error) {
    && a.gatewayPath == b.gatewayPath && ToLower(a.op.verb) == ToLower(b.op.verb)
    && e == M.Collision(b.op.verb, b.gatewayPath, a.source.backend + "." + a.op.operationId,
                        b.source.backend + "." + b.op.operationId)
  }

  lemma ClashFound(ops: seq<ExposedOp>, j: nat, pathOps: map<Slot, Claim>)
    requires j < |ops| && ClaimsNamed(ops, j, pathOps) && SlotFor(ops[j]) in pathOps
    ensures Clashes(ops, M.Collision(ops[j].op.verb, ops[j].gatewayPath, pathOps[SlotFor(ops[j])].who, Who(ops[j])))
  {
    var slot := SlotFor(ops[j]);
    assert ClaimedBy(ops, j, slot, pathOps[slot].who);
    var i :| 0 <= i < j && SlotFor(ops[i]) == slot && Who(ops[i]) == pathOps[slot].who;
    assert ClashAt(ops[i], ops[j], M.Collision(ops[j].op.verb, ops[j].gatewayPath, pathOps[slot].who, Who(ops[j])));
  }

  lemma ClaimsNamedPush(ops: seq<ExposedOp>, n: nat, pathOps: map<Slot, Claim>, c: Claim)
    requires n < |ops| && ClaimsNamed(ops, n, pathOps) && c.who == Who(ops[n])
    ensures ClaimsNamed(ops, n + 1, pathOps[SlotFor(ops[n]) := c])
  {
    var more := pathOps[SlotFor(ops[n]) := c];
    forall slot | slot in more ensures ClaimedBy(ops, n + 1, slot, more[slot].who) {
      if slot != SlotFor(ops[n]) {
        assert ClaimedBy(ops, n, slot, pathOps[slot].who);
        var i :| 0 <= i < n && SlotFor(ops[i]) == slot && Who(ops[i]) == pathOps[slot].who;
      }
    }
  }

  /** One pass of the operation loop. */
  method CopyOperation(m: M.Merger, e: ExposedOp, pathOps: map<Slot, Claim>, ghost jobs: seq<Job>)
    returns (r: Result<map<Slot, Claim>, M.Error>)
    requires m.Valid() && Loaded(m.specs, e) && Copied(m.specs, jobs, m.View(), pathOps)
    modifies m
    ensures m.Valid()
    ensures r.Ok? ==> Copied(m.specs, jobs + [JobOf(e)], m.View(), r.value)
    ensures m.introduced <= old(m.introduced) + {e.source}
    ensures r.Ok? ==> exists node :: r.value == pathOps[SlotFor(e) := Claim(node, Who(e))]
    ensures r.Err? && r.error.Collision? ==> SlotFor(e) in Slots(jobs) && SlotFor(e) in pathOps
    ensures r.Err? && r.error.Collision? ==>
      r.error == M.Collision(e.op.verb, e.gatewayPath, pathOps[SlotFor(e)].who, Who(e))
    ensures r.Err? && !r.error.Collision? ==> !Buildable(m.specs, JobOf(e))
  {
    var slot, who := SlotFor(e), Who(e);
    if slot in pathOps {
      return Err(M.Collision(e.op.verb, e.gatewayPath, pathOps[slot].who, who));
    }
    ghost var before := m.View();
    var built := m.BuildOperation(e);
    if built.Err? {
      return Err(built.error);
    }
    CopyStep(m.specs, jobs, before, m.View(), pathOps, JobOf(e), Claim(built.value, who));
    return Ok(pathOps[slot := Claim(built.value, who)]);
  }

  /** The operation loop, over the sorted operations: each (path, method) slot is claimed once
      or the merge stops. */
  method CopyOperations(m: M.Merger, ops: seq<ExposedOp>) returns (r: Result<map<Slot, Claim>, M.Error>)
    requires AllLoaded(m.specs, ops)
    requires m.Valid() && m.View() == M.State(map[], map[], []) && m.introduced == {}
    modifies m
    ensures m.Valid()
    ensures r.Ok? ==> Copied(m.specs, Jobs(m.specs, ops), m.View(), r.value)
    ensures r.Ok? ==> SourcesOf(Jobs(m.specs, ops), m.introduced)
    ensures r.Err? ==> !Mergeable(m.specs, Jobs(m.specs, ops))
    ensures r.Err? && r.error.Collision? ==> !Distinct(Jobs(m.specs, ops)) && Clashes(ops, r.error)
  {
    ghost var jobs := Jobs(m.specs, ops);
    var pathOps: map<Slot, Claim> := map[];
    for i := 0 to |ops|
      invariant m.Valid() && ClaimsNamed(ops, i, pathOps)
      invariant Copied(m.specs, jobs[..i], m.View(), pathOps)
      invariant SourcesOf(jobs[..i], m.introduced)
    {
      assert Loaded(m.specs, ops[i]);
      JobsAt(m.specs, ops, i);
      ghost var before := m.introduced;
      r := CopyOperation(m, ops[i], pathOps, jobs[..i]);
      if r.Err? {
        if r.error.Collision? {
          ClashFound(ops, i, pathOps);
          TakenTwice(jobs, i);
        } else {
          NotMergeable(m.specs, jobs, i);
        }
        return;
      }
      ClaimsNamedPush(ops, i, pathOps, r.value[SlotFor(ops[i])]);
      SourcesPush(jobs[..i], ops[i], before, m.introduced);
      pathOps := r.value;
    }
    assert jobs[..|ops|] == jobs;
    return Ok(pathOps);
  }

  lemma JobsAt(specs: Specs, ops: seq<ExposedOp>, i: nat)
    requires AllLoaded(specs, ops) && i < |ops|
    ensures Loaded(specs, ops[i]) && Jobs(specs, ops)[i] == JobOf(ops[i])
    ensures Jobs(specs, ops)[..i] + [JobOf(ops[i])] == Jobs(specs, ops)[..i + 1]
  {
    OneMore(Jobs(specs, ops), i);
  }

  lemma OneMore<A>(s: seq<A>, i: nat)
    requires i < |s|
    ensures s[..i] + [s[i]] == s[..i + 1]
  {
  }

  lemma NotMergeable(specs: Specs, jobs: seq<Job>, i: nat)
    requires i < |jobs| && !Buildable(specs, jobs[i])
    ensures !Mergeable(specs, jobs)
  {
  }

  lemma TakenTwice(jobs: seq<Job>, i: nat)
    requires i < |jobs| && jobs[i].slot in Slots(jobs[..i])
    ensures !Distinct(jobs)
  {
    var j :| j in jobs[..i] && j.slot == jobs[i].slot;
    var x :| 0 <= x < i && jobs[x] == j;
  }

  // ---- after the worklist ----

  lemma ClaimsKept(specs: Specs, jobs: seq<Job>, before: map<Key, string>, after: map<Key, string>,
                   pathOps: map<Slot, Claim>)
    requires ClaimsRight(specs, jobs, before, pathOps) && M.NamesKept(before, after)
    ensures ClaimsRight(specs, jobs, after, pathOps)
  {
    forall j | j in jobs ensures ClaimRight(after, pathOps, j) {
      assert ClaimRight(before, pathOps, j);
      M.PublishStable(before, after, j.spec, j.node);
    }
  }

  /** The names of the components come from the jobs' namespaces: each is the first candidate
      no other slot of its section had taken. */
  ghost predicate NamedBy(jobs: seq<Job>, taken: set<CompId>, k: Key, published: string) {
    exists j, n :: j in jobs && j.spec == k.spec && M.IsNth(taken, j.namespace, k.id, published, n)
  }

  ghost predicate NamesRight(jobs: seq<Job>, imported: map<Key, string>, taken: set<CompId>) {
    forall k {:trigger NamedBy(jobs, taken, k, imported[k])} | k in imported :: NamedBy(jobs, taken, k, imported[k])
  }

  lemma NamedByJobs(jobs: seq<Job>, introduced: set<Source>, s: M.State)
    requires SourcesOf(jobs, introduced) && M.AllNamed(introduced, s)
    ensures NamesRight(jobs, s.imported, s.comps.Keys)
  {
    forall k | k in s.imported ensures NamedBy(jobs, s.comps.Keys, k, s.imported[k]) {
      assert M.NamedAfter(introduced, s.comps.Keys, k, s.imported[k]);
      var src, n :| src in introduced && src.spec == k.spec
        && M.IsNth(s.comps.Keys, src.namespace, k.id, s.imported[k], n);
      assert HasSource(jobs, src);
      var j :| j in jobs && j.spec == src.spec && j.namespace == src.namespace;
      assert M.IsNth(s.comps.Keys, j.namespace, k.id, s.imported[k], n);
    }
  }

  /** The merge before dedupe: books closed, operations copied, nothing missing. */
  ghost predicate Imported(specs: Specs, jobs: seq<Job>, s: M.State, pathOps: map<Slot, Claim>) {
    && P.Drained(specs, s) && D.Filled(s.comps)
    && Distinct(jobs) && pathOps.Keys == Slots(jobs)
    && ClaimsRight(specs, jobs, s.imported, pathOps)
    && NamesRight(jobs, s.imported, s.comps.Keys)
    && M.ExactlyReachable(specs, Roots(jobs), s.imported.Keys)
  }

  lemma ImportedIsMergeable(specs: Specs, jobs: seq<Job>, s: M.State, pathOps: map<Slot, Claim>)
    requires Imported(specs, jobs, s, pathOps)
    ensures Mergeable(specs, jobs)
  {
    forall i | 0 <= i < |jobs| ensures Buildable(specs, jobs[i]) {
      assert jobs[i] in jobs;
    }
    forall k | M.Reachable(specs, Roots(jobs), k)
      ensures M.Known(specs, k) && M.RefsGood(specs, k.spec, M.NodeOf(specs, k))
    {
      assert k in s.imported;
      P.KeyWellFormed(specs, s, k);
      M.FilledTargets(specs, s, k);
      forall r | r in Refs(M.NodeOf(specs, k)) ensures M.RefGood(specs[k.spec], r) {
        M.TargetOf(k.spec, M.NodeOf(specs, k), r);
        P.KeyWellFormed(specs, s, M.Key(k.spec, ParseLocalRef(r).value.id));
      }
    }
  }
}
