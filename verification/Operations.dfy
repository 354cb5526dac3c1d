/** Operations on their way out: path-item parameters folded in, gateway ids and
    provenance stamped on. */
module Operations {
  import opened Wrappers
  import opened Nodes

  type SpecId = nat

  datatype Source = Source(spec: SpecId, backend: string, namespace: string)

  datatype Operation = Operation(path: string, verb: string, operationId: string, tags: seq<string>,
                                 node: Node, pathParams: Option<Node>)

  datatype ExposedOp = ExposedOp(source: Source, op: Operation, gatewayPath: string, operationId: string)

  /** `paramIdentity`: name and location, or nothing for a parameter that lacks either. */
  function Identity(p: Node): string {
    var name, place := MapGet(p, "name"), MapGet(p, "in");
    if name.None? || place.None? then "" else ScalarText(name.value) + "\0" + ScalarText(place.value)
  }

  /** A loaded operation: a mapping whose `parameters`, if present, are a list. */
  predicate WellFormedOp(n: Node) {
    n.Mapping? && (MapGet(n, "parameters").Some? ==> MapGet(n, "parameters").value.Sequence?)
  }

  function ParamList(op: Node): seq<Node>
    requires WellFormedOp(op)
  {
    var own := MapGet(op, "parameters");
    if own.Some? then own.value.items else []
  }

  function Filter<T>(xs: seq<T>, keep: T -> bool): seq<T> {
    if xs == [] then []
    else if keep(xs[0]) then [xs[0]] + Filter(xs[1..], keep)
    else Filter(xs[1..], keep)
  }

  lemma FilterCons<T>(x: T, xs: seq<T>, keep: T -> bool)
    ensures Filter([x] + xs, keep) == (if keep(x) then [x] else []) + Filter(xs, keep)
  {
    assert ([x] + xs)[1..] == xs;
  }

  lemma {:induction false} FilterAppend<T>(xs: seq<T>, ys: seq<T>, keep: T -> bool)
    ensures Filter(xs + ys, keep) == Filter(xs, keep) + Filter(ys, keep)
  {
    if xs == [] {
      assert xs + ys == ys;
    } else {
      FilterAppend(xs[1..], ys, keep);
      FilterCons(xs[0], xs[1..] + ys, keep);
      assert xs + ys == [xs[0]] + (xs[1..] + ys);
    }
  }

  lemma {:induction false} FilterTwice<T>(xs: seq<T>, first: T -> bool, second: T -> bool, both: T -> bool)
    requires forall x | x in xs :: both(x) == (first(x) && second(x))
    ensures Filter(Filter(xs, first), second) == Filter(xs, both)
  {
    if xs != [] {
      FilterTwice(xs[1..], first, second, both);
    }
  }

  lemma {:induction false} FilterNone<T>(xs: seq<T>, keep: T -> bool)
    ensures Filter(xs, keep) == [] <==> forall x | x in xs :: !keep(x)
  {
    if xs != [] {
      FilterNone(xs[1..], keep);
      assert forall x | x in xs :: x == xs[0] || x in xs[1..];
    }
  }

  /** The parameters with a given identity, in order. */
  function WithIdentity(ps: seq<Node>, id: string): seq<Node> {
    Filter(ps, p => Identity(p) == id)
  }

  /** The path-level parameters no operation-level one overrides. */
  function Kept(ps: seq<Node>, own: set<string>): seq<Node> {
    Filter(ps, p => !(Identity(p) != "" && Identity(p) in own))
  }

  function Identities(ps: seq<Node>): set<string> {
    set p | p in ps :: Identity(p)
  }

  function Folded(op: Node, shared: seq<Node>): Node
    requires WellFormedOp(op)
  {
    var own := ParamList(op);
    var add := Kept(shared, Identities(own));
    if add == [] then op else MapSet(op, "parameters", Sequence(add + own))
  }

  lemma KeptWithIdentity(ps: seq<Node>, own: set<string>, id: string)
    ensures WithIdentity(Kept(ps, own), id) == if id != "" && id in own then [] else WithIdentity(ps, id)
  {
    var kept := (p: Node) => !(Identity(p) != "" && Identity(p) in own);
    var same := (p: Node) => Identity(p) == id;
    if id != "" && id in own {
      FilterTwice(ps, kept, same, p => false);
      FilterNone(ps, p => false);
    } else {
      FilterTwice(ps, kept, same, same);
    }
  }

  /** Folding, parameter by parameter: an operation-level parameter wins its (name, in)
      outright, any other path-level parameter is present, path-level ones come first, and
      nothing else in the operation changes. */
  lemma FoldedParams(op: Node, shared: seq<Node>, id: string, key: string)
    requires WellFormedOp(op)
    ensures WellFormedOp(Folded(op, shared))
    ensures var own := ParamList(op);
            WithIdentity(ParamList(Folded(op, shared)), id) ==
            (if id != "" && id in Identities(own) then WithIdentity(own, id)
             else WithIdentity(shared, id) + WithIdentity(own, id))
    ensures ParamList(Folded(op, shared)) == Kept(shared, Identities(ParamList(op))) + ParamList(op)
    ensures key != "parameters" ==> MapGet(Folded(op, shared), key) == MapGet(op, key)
  {
    var own := ParamList(op);
    var add := Kept(shared, Identities(own));
    KeptWithIdentity(shared, Identities(own), id);
    FilterAppend(add, own, p => Identity(p) == id);
    if add != [] {
      MapSetGet(op, "parameters", Sequence(add + own), "parameters");
      MapSetGet(op, "parameters", Sequence(add + own), key);
    }
  }

  lemma KeptPush(ps: seq<Node>, i: nat, own: set<string>)
    requires i < |ps|
    ensures Kept(ps[..i + 1], own) ==
            Kept(ps[..i], own) + if Identity(ps[i]) != "" && Identity(ps[i]) in own then [] else [ps[i]]
  {
    assert ps[..i + 1] == ps[..i] + [ps[i]];
    FilterAppend(ps[..i], [ps[i]], p => !(Identity(p) != "" && Identity(p) in own));
  }

  method IdentitySet(ps: seq<Node>) returns (existing: set<string>)
    ensures existing == Identities(ps)
  {
    existing := {};
    for i := 0 to |ps|
      invariant existing == Identities(ps[..i])
    {
      assert ps[..i + 1] == ps[..i] + [ps[i]];
      existing := existing + {Identity(ps[i])};
    }
    assert ps[..|ps|] == ps;
  }

  /** `foldPathParams`. */
  method FoldPathParams(op: Node, pathParams: Node) returns (r: Option<Node>)
    requires WellFormedOp(op)
    ensures r == if pathParams.Sequence? then Some(Folded(op, pathParams.items)) else None
  {
    if !pathParams.Sequence? {
      return None;
    }
    var own := ParamList(op);
    var existing := IdentitySet(own);
    var shared := pathParams.items;
    var add: seq<Node> := [];
    for i := 0 to |shared|
      invariant add == Kept(shared[..i], existing)
    {
      KeptPush(shared, i, existing);
      var id := Identity(shared[i]);
      if id != "" && id in existing {
        continue;
      }
      add := add + [shared[i]];
    }
    assert shared[..|shared|] == shared;
    if add == [] {
      return Some(op);
    }
    return Some(MapSet(op, "parameters", Sequence(add + own)));
  }

  // ---- the fold, by name and location ----

  /** A parameter with this name and in this location. */
  predicate Labelled(p: Node, name: string, place: string) {
    && MapGet(p, "name").Some? && ScalarText(MapGet(p, "name").value) == name
    && MapGet(p, "in").Some? && ScalarText(MapGet(p, "in").value) == place
  }

  /** One of `own` has the name and the location of `p`. */
  predicate Overridden(p: Node, own: seq<Node>) {
    && MapGet(p, "name").Some? && MapGet(p, "in").Some?
    && exists q :: q in own && Labelled(q, ScalarText(MapGet(p, "name").value), ScalarText(MapGet(p, "in").value))
  }

  /** No name or location contains NUL. */
  predicate NulFree(p: Node) {
    && (MapGet(p, "name").Some? ==> '\0' !in ScalarText(MapGet(p, "name").value))
    && (MapGet(p, "in").Some? ==> '\0' !in ScalarText(MapGet(p, "in").value))
  }

  /** Texts joined by a separator that the first pair does not contain. */
  lemma JoinedApart(a: string, b: string, x: string, y: string)
    requires '\0' !in a && '\0' !in b && a + "\0" + b == x + "\0" + y
    ensures a == x && b == y
  {
    var s := a + "\0" + b;
    assert s[|a|] == '\0' && s[|x|] == '\0';
    assert forall i | 0 <= i < |a| :: s[i] == a[i];
    assert forall i | 0 <= i < |b| :: s[|a| + 1 + i] == b[i];
    assert forall i | 0 <= i < |s| && i != |a| :: s[i] != '\0';
    assert a == s[..|a|] && x == s[..|x|] && b == s[|a| + 1..] && y == s[|x| + 1..];
  }

  lemma SameIdentity(p: Node, q: Node)
    requires NulFree(p) && MapGet(p, "name").Some? && MapGet(p, "in").Some?
    ensures Identity(p) != ""
    ensures Identity(p) == Identity(q) <==>
            Labelled(q, ScalarText(MapGet(p, "name").value), ScalarText(MapGet(p, "in").value))
  {
    if Identity(p) == Identity(q) {
      JoinedApart(ScalarText(MapGet(p, "name").value), ScalarText(MapGet(p, "in").value),
                  ScalarText(MapGet(q, "name").value), ScalarText(MapGet(q, "in").value));
    }
  }

  lemma OverriddenIs(p: Node, own: seq<Node>)
    requires NulFree(p)
    ensures Identity(p) != "" && Identity(p) in Identities(own) <==> Overridden(p, own)
  {
    if MapGet(p, "name").Some? && MapGet(p, "in").Some? {
      forall q ensures Identity(p) == Identity(q) <==>
                       Labelled(q, ScalarText(MapGet(p, "name").value), ScalarText(MapGet(p, "in").value))
      {
        SameIdentity(p, q);
      }
    }
  }

  /** The folded list: the path-level parameters without those some operation-level one has the
      name and the location of, in their order, then the operation-level ones. */
  lemma FoldedList(op: Node, shared: seq<Node>)
    requires WellFormedOp(op) && forall p | p in shared :: NulFree(p)
    ensures WellFormedOp(Folded(op, shared))
    ensures ParamList(Folded(op, shared)) == Filter(shared, p => !Overridden(p, ParamList(op))) + ParamList(op)
  {
    var own := ParamList(op);
    FoldedParams(op, shared, "", "");
    forall p | p in shared
      ensures !(Identity(p) != "" && Identity(p) in Identities(own)) == !Overridden(p, own)
    {
      OverriddenIs(p, own);
    }
    FilterAlike(shared, p => !(Identity(p) != "" && Identity(p) in Identities(own)), p => !Overridden(p, own));
  }

  lemma {:induction false} FilterAlike<T>(xs: seq<T>, a: T -> bool, b: T -> bool)
    requires forall x | x in xs :: a(x) == b(x)
    ensures Filter(xs, a) == Filter(xs, b)
  {
    if xs != [] {
      FilterAlike(xs[1..], a, b);
    }
  }

  /** What filtering keeps. */
  lemma {:induction false} FilterHas<T>(xs: seq<T>, keep: T -> bool, x: T)
    ensures x in Filter(xs, keep) <==> x in xs && keep(x)
  {
    if xs != [] {
      FilterHas(xs[1..], keep, x);
      assert x in xs <==> x == xs[0] || x in xs[1..];
    }
  }

  /** One path-level parameter: it is left out exactly when an operation-level one has its name
      and its location. */
  lemma FoldedLeavesOut(op: Node, shared: seq<Node>, p: Node)
    requires WellFormedOp(op) && (forall q | q in shared :: NulFree(q)) && p in shared && p !in ParamList(op)
    ensures WellFormedOp(Folded(op, shared))
    ensures p !in ParamList(Folded(op, shared)) <==> Overridden(p, ParamList(op))
  {
    FoldedList(op, shared);
    FilterHas(shared, q => !Overridden(q, ParamList(op)), p);
  }

  /** The gateway-level id and the provenance extensions. */
  function Stamped(n: Node, e: ExposedOp): (s: Node)
    requires n.Mapping?
    ensures s.Mapping?
  {
    MapSet(MapSet(MapSet(MapSet(n,
      "operationId", Str(e.operationId)),
      "x-nina-backend", Str(e.source.backend)),
      "x-nina-upstream-path", Str(e.op.path)),
      "x-nina-upstream-operation-id", Str(e.op.operationId))
  }

  const STAMPS: set<string> :=
    {"operationId", "x-nina-backend", "x-nina-upstream-path", "x-nina-upstream-operation-id"}

  lemma StampedGet(n: Node, e: ExposedOp, key: string)
    requires n.Mapping?
    ensures key !in STAMPS ==> MapGet(Stamped(n, e), key) == MapGet(n, key)
    ensures MapGet(Stamped(n, e), "operationId") == Some(Str(e.operationId))
    ensures MapGet(Stamped(n, e), "x-nina-backend") == Some(Str(e.source.backend))
    ensures MapGet(Stamped(n, e), "x-nina-upstream-path") == Some(Str(e.op.path))
    ensures MapGet(Stamped(n, e), "x-nina-upstream-operation-id") == Some(Str(e.op.operationId))
  {
    var a := MapSet(n, "operationId", Str(e.operationId));
    var b := MapSet(a, "x-nina-backend", Str(e.source.backend));
    var c := MapSet(b, "x-nina-upstream-path", Str(e.op.path));
    forall k: string
      ensures MapGet(Stamped(n, e), k) ==
              if k == "x-nina-upstream-operation-id" then Some(Str(e.op.operationId))
              else if k == "x-nina-upstream-path" then Some(Str(e.op.path))
              else if k == "x-nina-backend" then Some(Str(e.source.backend))
              else if k == "operationId" then Some(Str(e.operationId))
              else MapGet(n, k)
    {
      MapSetGet(n, "operationId", Str(e.operationId), k);
      MapSetGet(a, "x-nina-backend", Str(e.source.backend), k);
      MapSetGet(b, "x-nina-upstream-path", Str(e.op.path), k);
      MapSetGet(c, "x-nina-upstream-operation-id", Str(e.op.operationId), k);
    }
  }

  /** What an exposed operation says before its references are repointed. */
  function Prepared(e: ExposedOp): Node
    requires WellFormedOp(e.op.node)
  {
    Stamped(if e.op.pathParams.Some? && e.op.pathParams.value.Sequence?
            then Folded(e.op.node, e.op.pathParams.value.items) else e.op.node, e)
  }

  predicate ParamsFold(e: ExposedOp) {
    e.op.pathParams.Some? ==> e.op.pathParams.value.Sequence?
  }

  /** The shared parameters of the operation's path. */
  function PathParams(e: ExposedOp): seq<Node> {
    if e.op.pathParams.Some? && e.op.pathParams.value.Sequence? then e.op.pathParams.value.items else []
  }

  /** A key that neither folding nor stamping writes. */
  predicate Untouched(key: string) {
    && key != "parameters" && key != "operationId"
    && key != "x-nina-backend" && key != "x-nina-upstream-path" && key != "x-nina-upstream-operation-id"
  }

  /** A prepared operation, key by key: the stamps, the folded parameters, and for the rest what
      the operation said. */
  lemma PreparedSays(e: ExposedOp, key: string)
    requires WellFormedOp(e.op.node) && forall p | p in PathParams(e) :: NulFree(p)
    ensures WellFormedOp(Prepared(e))
    ensures ParamList(Prepared(e))
            == Filter(PathParams(e), p => !Overridden(p, ParamList(e.op.node))) + ParamList(e.op.node)
    ensures MapGet(Prepared(e), "operationId") == Some(Str(e.operationId))
    ensures MapGet(Prepared(e), "x-nina-backend") == Some(Str(e.source.backend))
    ensures MapGet(Prepared(e), "x-nina-upstream-path") == Some(Str(e.op.path))
    ensures MapGet(Prepared(e), "x-nina-upstream-operation-id") == Some(Str(e.op.operationId))
    ensures Untouched(key) ==> MapGet(Prepared(e), key) == MapGet(e.op.node, key)
  {
    var folded := if e.op.pathParams.Some? && e.op.pathParams.value.Sequence?
                  then Folded(e.op.node, e.op.pathParams.value.items) else e.op.node;
    FoldedList(e.op.node, PathParams(e));
    FoldedParams(e.op.node, PathParams(e), "", key);
    StampedGet(folded, e, key);
    StampedGet(folded, e, "parameters");
    NotStamped(key);
  }

  lemma NotStamped(key: string)
    ensures "parameters" !in STAMPS
    ensures Untouched(key) ==> key !in STAMPS
  {
    assert "parameters"[0] == 'p';
  }
}
