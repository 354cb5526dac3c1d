/** The router: a trie grown in place, against the flat list of routes it stands for. */
module Router {
  import opened Wrappers
  import opened Text
  import opened Paths
  import opened Escaping

  datatype Handler<T> = Handler(payload: T, paramNames: seq<string>)

  /** One successful registration; the verb is upper-case. */
  datatype Route<T> = Route(verb: string, template: string, payload: T)

  datatype Conflict = Conflict(verb: string, path: string, existing: string)

  datatype Param = Param(name: string, value: string)

  datatype Answer<T> = Answer(payload: Option<T>, params: seq<Param>, found: bool, pathMatched: bool,
                              allow: seq<string>)

  // ---- the flat reference: what a list of routes answers ----

  function RouteShape<T>(r: Route<T>): Shape {
    TemplateShape(r.template)
  }

  predicate Claims<T>(r: Route<T>, verb: string, shape: Shape) {
    r.verb == verb && RouteShape(r) == shape
  }

  predicate Taken<T>(routes: seq<Route<T>>, verb: string, shape: Shape) {
    exists i :: 0 <= i < |routes| && Claims(routes[i], verb, shape)
  }

  predicate Registered<T>(routes: seq<Route<T>>, shape: Shape) {
    exists i :: 0 <= i < |routes| && RouteShape(routes[i]) == shape
  }

  /** No verb contains a space, as no HTTP method token can. */
  predicate SpaceFree<T>(routes: seq<Route<T>>) {
    forall i | 0 <= i < |routes| :: ' ' !in routes[i].verb
  }

  /** The shape a path selects: it fits, and wins over every other that fits. */
  ghost predicate Selects<T>(routes: seq<Route<T>>, segs: seq<string>, shape: Shape) {
    && Registered(routes, shape) && Fits(shape, segs)
    && forall q {:trigger Registered(routes, q)} | Registered(routes, q) && Fits(q, segs) ::
         q == shape || Before(shape, q)
  }

  /** At most one shape is selected. */
  lemma SelectsUnique<T>(routes: seq<Route<T>>, segs: seq<string>, a: Shape, b: Shape)
    requires Selects(routes, segs, a) && Selects(routes, segs, b)
    ensures a == b
  {
    if a != b {
      BeforeTotal(a, b, segs);
    }
  }

  /** A parameter carries its segment decoded, or as it stands if it cannot be. */
  predicate HoldsDecoded(p: Param, name: string, raw: string) {
    p.name == name && match PathUnescape(raw) case Some(v) => p.value == v case None => p.value == raw
  }

  /** The verbs served at a shape, sorted for the Allow header. */
  ghost predicate AllowList<T>(routes: seq<Route<T>>, shape: Shape, allow: seq<string>) {
    && (forall v :: v in allow <==> Taken(routes, v, shape))
    && Ascending(allow)
  }

  predicate Ascending(vs: seq<string>) {
    forall i, j | 0 <= i < j < |vs| :: Leq(vs[i], vs[j]) && vs[i] != vs[j]
  }

  /** What answering from one route of the list gives. */
  ghost predicate AnswersFrom<T>(r: Route<T>, segs: seq<string>, a: Answer<T>) {
    && |SplitPath(r.template)| == |segs|
    && var names, values := NamesOf(SplitPath(r.template)), Captures(RouteShape(r), segs);
    && |names| == |values| == |a.params|
    && a.payload == Some(r.payload)
    && forall i | 0 <= i < |a.params| :: HoldsDecoded(a.params[i], names[i], values[i])
  }

  /** The verb that decides: the request's own, or GET for an unregistered HEAD. */
  function DecidingVerb<T>(routes: seq<Route<T>>, verb: string, shape: Shape): string {
    if !Taken(routes, verb, shape) && verb == "HEAD" then "GET" else verb
  }

  /** The whole specification of a match, over the flat list alone. */
  ghost predicate Matches<T>(routes: seq<Route<T>>, verb: string, segs: seq<string>, a: Answer<T>) {
    && (a.pathMatched <==> exists shape :: Registered(routes, shape) && Fits(shape, segs))
    && (!a.pathMatched ==> a == Answer(None, [], false, false, []))
    && (a.pathMatched ==> exists shape :: MatchesAt(routes, verb, segs, a, shape))
  }

  ghost predicate MatchesAt<T>(routes: seq<Route<T>>, verb: string, segs: seq<string>, a: Answer<T>, shape: Shape) {
    && Selects(routes, segs, shape)
    && AllowList(routes, shape, a.allow)
    && (a.found <==> Taken(routes, DecidingVerb(routes, verb, shape), shape))
    && (!a.found ==> a.payload == None && a.params == [])
    && (a.found ==> exists i :: (0 <= i < |routes|
          && Claims(routes[i], DecidingVerb(routes, verb, shape), shape) && AnswersFrom(routes[i], segs, a)))
  }

  /** A conflict names the request and an earlier route of the same verb and shape. */
  predicate Blames<T>(c: Conflict, verb: string, template: string, routes: seq<Route<T>>) {
    && c.verb == verb && c.path == template
    && exists i :: 0 <= i < |routes| && Claims(routes[i], verb, TemplateShape(template))
         && c.existing == verb + " " + routes[i].template
  }

  /** The table of templates can name every route that came first. */
  predicate AllNamed<T>(templates: map<string, string>, routes: seq<Route<T>>) {
    forall i {:trigger Named(templates, routes[i])} | 0 <= i < |routes| :: Named(templates, routes[i])
  }

  predicate Named<T>(templates: map<string, string>, r: Route<T>) {
    var key := TemplateKey(r.verb, r.template);
    key in templates && templates[key] == r.verb + " " + r.template
  }

  lemma NamesKept<T>(templates: map<string, string>, routes: seq<Route<T>>, r: Route<T>)
    requires SpaceFree(routes + [r]) && !Taken(routes, r.verb, RouteShape(r))
    requires SpaceFree(routes) ==> AllNamed(templates, routes)
    ensures AllNamed(templates[TemplateKey(r.verb, r.template) := r.verb + " " + r.template], routes + [r])
  {
    var more := routes + [r];
    assert more[|routes|] == r;
    assert forall i | 0 <= i < |routes| :: routes[i] == more[i];
    forall i | 0 <= i < |routes|
      ensures TemplateKey(routes[i].verb, routes[i].template) != TemplateKey(r.verb, r.template)
      ensures Named(templates, routes[i])
    {
      var o := routes[i];
      if TemplateKey(o.verb, o.template) == TemplateKey(r.verb, r.template) {
        TemplateKeyInjective(o.verb, o.template, r.verb, r.template);
        assert Claims(o, r.verb, RouteShape(r));
      }
    }
  }

  /** A node's handlers and sorted methods are exactly the verbs registered at its shape. */
  ghost predicate NodeServes<T>(routes: seq<Route<T>>, p: Shape, handlers: map<string, Handler<T>>,
                                methods: seq<string>)
  {
    && (forall v :: v in handlers <==> Taken(routes, v, p))
    && (forall v :: v in methods <==> v in handlers)
    && Ascending(methods)
    && (forall i {:trigger Held(routes[i], handlers)} | 0 <= i < |routes| && RouteShape(routes[i]) == p ::
          Held(routes[i], handlers))
  }

  ghost predicate Held<T>(r: Route<T>, handlers: map<string, Handler<T>>) {
    r.verb in handlers && handlers[r.verb] == Handler(r.payload, NamesOf(SplitPath(r.template)))
  }

  /** Every route has a node. */
  ghost predicate Placed<T>(nodes: map<Shape, TrieNode<T>>, routes: seq<Route<T>>) {
    forall i {:trigger RouteShape(routes[i])} | 0 <= i < |routes| :: RouteShape(routes[i]) in nodes
  }

  /** One more route is held where it belongs, and nowhere else. */
  lemma NodeServesMore<T>(routes: seq<Route<T>>, r: Route<T>, p: Shape, handlers: map<string, Handler<T>>,
                      methods: seq<string>, entry: Handler<T>)
    requires NodeServes(routes, p, handlers, methods)
    requires RouteShape(r) == p ==> r.verb !in handlers
    requires entry == Handler(r.payload, NamesOf(SplitPath(r.template)))
    ensures RouteShape(r) != p ==> NodeServes(routes + [r], p, handlers, methods)
    ensures RouteShape(r) == p ==> NodeServes(routes + [r], p, handlers[r.verb := entry], Inserted(methods, r.verb))
  {
    var more := routes + [r];
    forall w ensures Taken(more, w, p) <==> Taken(routes, w, p) || Claims(r, w, p) {
      TakenGrows(routes, r, w, p);
    }
    forall i | 0 <= i < |routes| && RouteShape(routes[i]) == p
      ensures Held(routes[i], handlers) && Taken(routes, routes[i].verb, p)
    {
      assert Claims(routes[i], routes[i].verb, p);
    }
    forall i | 0 <= i < |more| && RouteShape(more[i]) == p
      ensures Held(more[i], if RouteShape(r) == p then handlers[r.verb := entry] else handlers)
    {
      assert i < |routes| ==> more[i] == routes[i];
    }
  }

  /** No two routes share verb and shape. */
  predicate NoTwins<T>(routes: seq<Route<T>>) {
    forall i, j | 0 <= i < j < |routes| :: !Claims(routes[i], routes[j].verb, RouteShape(routes[j]))
  }

  // ---- consequences of the flat reading ----

  lemma SameAnswer<T>(r: Route<T>, segs: seq<string>, a: Answer<T>, b: Answer<T>)
    requires AnswersFrom(r, segs, a) && AnswersFrom(r, segs, b)
    ensures a.payload == b.payload && a.params == b.params
  {
  }

  lemma OneHolder<T>(routes: seq<Route<T>>, verb: string, shape: Shape, i: nat, j: nat)
    requires NoTwins(routes) && i < |routes| && j < |routes|
    requires Claims(routes[i], verb, shape) && Claims(routes[j], verb, shape)
    ensures i == j
  {
  }

  lemma AnswersUnique<T>(routes: seq<Route<T>>, verb: string, segs: seq<string>, a: Answer<T>, b: Answer<T>,
                         shape: Shape)
    requires NoTwins(routes) && MatchesAt(routes, verb, segs, a, shape) && MatchesAt(routes, verb, segs, b, shape)
    ensures a.allow == b.allow && a.found == b.found && a.payload == b.payload && a.params == b.params
  {
    AscendingUnique(a.allow, b.allow);
    if a.found {
      var v := DecidingVerb(routes, verb, shape);
      var i :| 0 <= i < |routes| && Claims(routes[i], v, shape) && AnswersFrom(routes[i], segs, a);
      var j :| 0 <= j < |routes| && Claims(routes[j], v, shape) && AnswersFrom(routes[j], segs, b);
      OneHolder(routes, v, shape, i, j);
      SameAnswer(routes[i], segs, a, b);
    }
  }

  /** The specification leaves no choice: at most one answer meets it. */
  lemma MatchesUnique<T>(routes: seq<Route<T>>, verb: string, segs: seq<string>, a: Answer<T>, b: Answer<T>)
    requires NoTwins(routes) && Matches(routes, verb, segs, a) && Matches(routes, verb, segs, b)
    ensures a == b
  {
    if a.pathMatched {
      var s :| MatchesAt(routes, verb, segs, a, s);
      var t :| MatchesAt(routes, verb, segs, b, t);
      SelectsUnique(routes, segs, s, t);
      AnswersUnique(routes, verb, segs, a, b, s);
    }
  }

  lemma {:induction false} AscendingUnique(a: seq<string>, b: seq<string>)
    requires Ascending(a) && Ascending(b) && forall v :: v in a <==> v in b
    ensures a == b
  {
    assert (a != [] ==> a[0] in a) && (b != [] ==> b[0] in b);
    if a != [] {
      if a[0] != b[0] {
        LeqAntisymmetric(a[0], b[0]);
      }
      assert a == [a[0]] + a[1..] && b == [b[0]] + b[1..];
      forall v ensures v in a[1..] <==> v in b[1..] {
        assert v in a[1..] <==> v in a && v != a[0];
        assert v in b[1..] <==> v in b && v != b[0];
      }
      AscendingUnique(a[1..], b[1..]);
    }
  }

  /** The parameter read at position `i` of the template: under the name in the braces, the text
      the segment encodes, or the segment itself where it encodes nothing. */
  ghost predicate ReadAt<T>(r: Route<T>, segs: seq<string>, a: Answer<T>, i: nat)
    requires i < |segs| == |SplitPath(r.template)|
  {
    exists k :: 0 <= k < |a.params| && SplitPath(r.template)[i] == "{" + a.params[k].name + "}"
      && (forall v | IsBytes(v) && segs[i] == PathEscape(v) :: a.params[k].value == v)
      && (PathUnescape(segs[i]) == None ==> a.params[k].value == segs[i])
  }

  lemma ParamRead<T>(r: Route<T>, segs: seq<string>, a: Answer<T>, i: nat)
    requires AnswersFrom(r, segs, a) && i < |segs| && IsParam(SplitPath(r.template)[i])
    ensures ReadAt(r, segs, a, i)
  {
    var template := SplitPath(r.template);
    var k := |NamesOf(template[..i])|;
    NamedCapture(template, segs, i);
    ParamText(template[i], "");
    forall v | IsBytes(v) && segs[i] == PathEscape(v) ensures a.params[k].value == v {
      UnescapeInvertsEscape(v);
    }
    assert template[i] == "{" + a.params[k].name + "}";
  }

  /** A match reads every parameter of the route it found. */
  lemma MatchReads<T>(routes: seq<Route<T>>, verb: string, segs: seq<string>, a: Answer<T>) returns (j: nat)
    requires Matches(routes, verb, segs, a) && a.found
    ensures j < |routes| && a.payload == Some(routes[j].payload) && |SplitPath(routes[j].template)| == |segs|
    ensures routes[j].verb == verb || (routes[j].verb == "GET" && verb == "HEAD")
    ensures forall i | 0 <= i < |segs| ::
              if IsParam(SplitPath(routes[j].template)[i]) then ReadAt(routes[j], segs, a, i)
              else SplitPath(routes[j].template)[i] == segs[i]
  {
    var shape :| MatchesAt(routes, verb, segs, a, shape);
    j :| 0 <= j < |routes| && Claims(routes[j], DecidingVerb(routes, verb, shape), shape)
           && AnswersFrom(routes[j], segs, a);
    forall i | 0 <= i < |segs|
      ensures if IsParam(SplitPath(routes[j].template)[i]) then ReadAt(routes[j], segs, a, i)
              else SplitPath(routes[j].template)[i] == segs[i]
    {
      if IsParam(SplitPath(routes[j].template)[i]) {
        ParamRead(routes[j], segs, a, i);
      } else {
        assert shape[i] == Lit(SplitPath(routes[j].template)[i]);
      }
    }
  }

  /** At the shape a path selects, HEAD is answered by GET's route where it has none of its own,
      and any other method without a route is refused. */
  lemma HeadFallsBack<T>(routes: seq<Route<T>>, verb: string, segs: seq<string>, a: Answer<T>, shape: Shape)
    requires Matches(routes, verb, segs, a) && Selects(routes, segs, shape) && NoTwins(routes)
    ensures a.pathMatched
    ensures a.found <==> Taken(routes, verb, shape) || (verb == "HEAD" && Taken(routes, "GET", shape))
    ensures forall i | 0 <= i < |routes| && a.found && RouteShape(routes[i]) == shape
                       && routes[i].verb == (if Taken(routes, verb, shape) then verb else "GET") ::
              a.payload == Some(routes[i].payload)
  {
    var s :| a.pathMatched ==> MatchesAt(routes, verb, segs, a, s);
    assert Registered(routes, shape) && Fits(shape, segs);
    SelectsUnique(routes, segs, s, shape);
    if a.found {
      var v := DecidingVerb(routes, verb, shape);
      var j :| 0 <= j < |routes| && Claims(routes[j], v, shape) && AnswersFrom(routes[j], segs, a);
      forall i | 0 <= i < |routes| && Claims(routes[i], v, shape) ensures i == j {
        OneHolder(routes, v, shape, i, j);
      }
    }
  }

  /** At each parameter of `shape` the path's segment is no literal another route has there. */
  ghost predicate Clear<T>(routes: seq<Route<T>>, shape: Shape, segs: seq<string>)
    requires |shape| == |segs|
  {
    forall q, i {:trigger Registered(routes, q), shape[i]} |
      Registered(routes, q) && 0 <= i < |shape| && i < |q| && q[..i] == shape[..i] && shape[i].Par? ::
      q[i] != Lit(segs[i])
  }

  /** Every route is served: instantiate its template clear of literals and it is the one found. */
  lemma RouteIsServed<T>(routes: seq<Route<T>>, k: nat, segs: seq<string>, a: Answer<T>)
    requires NoTwins(routes) && k < |routes|
    requires Fits(RouteShape(routes[k]), segs) && Clear(routes, RouteShape(routes[k]), segs)
    requires Matches(routes, routes[k].verb, segs, a)
    ensures a.found && AnswersFrom(routes[k], segs, a)
  {
    var shape, verb := RouteShape(routes[k]), routes[k].verb;
    assert Registered(routes, shape) && Claims(routes[k], verb, shape);
    forall q: Shape {:trigger Registered(routes, q)} | Registered(routes, q) && Fits(q, segs)
      ensures q == shape || Before(shape, q)
    {
      if q != shape {
        BeforeTotal(q, shape, segs);
      }
    }
    var s :| MatchesAt(routes, verb, segs, a, s);
    SelectsUnique(routes, segs, s, shape);
    var i :| 0 <= i < |routes| && Claims(routes[i], verb, shape) && AnswersFrom(routes[i], segs, a);
    assert i == k;
  }

  // ---- the trie ----

  class TrieNode<T> {
    var literals: map<string, TrieNode<T>>
    var param: TrieNode?<T>
    var handlers: map<string, Handler<T>>
    var methods: seq<string>

    constructor ()
      ensures literals == map[] && param == null && handlers == map[] && methods == []
    {
      literals, param, handlers, methods := map[], null, map[], [];
    }
  }

  /** One segment on from `p`: a link to the node there, if there is one. */
  ghost predicate LinkTo<T>(nodes: map<Shape, TrieNode<T>>, p: Shape,
                            literals: map<string, TrieNode<T>>, param: TrieNode?<T>, x: Seg) {
    match x
    case Lit(text) => (text in literals <==> p + [x] in nodes)
      && (text in literals ==> literals[text] == nodes[p + [x]])
    case Par => (param != null <==> p + [x] in nodes) && (param != null ==> param == nodes[p + [x]])
  }

  /** A node at `p` points exactly at the nodes one segment further. */
  ghost predicate Links<T>(nodes: map<Shape, TrieNode<T>>, p: Shape,
                           literals: map<string, TrieNode<T>>, param: TrieNode?<T>) {
    && (forall x {:trigger LinkTo(nodes, p, literals, param, x)} :: LinkTo(nodes, p, literals, param, x))
    && (|p| > 0 ==> p[..|p| - 1] in nodes)
  }

  /** Links survive a new child at `p + [x]`, once `p` itself points at it. */
  lemma GrowKeepsLinks<T>(nodes: map<Shape, TrieNode<T>>, p: Shape, x: Seg, child: TrieNode<T>,
                          q: Shape, literals: map<string, TrieNode<T>>, param: TrieNode?<T>)
    requires Links(nodes, q, literals, param) && p + [x] !in nodes
    ensures Links(nodes[p + [x] := child], q,
                  if q == p && x.Lit? then literals[x.text := child] else literals,
                  if q == p && x.Par? then child else param)
  {
    var lits := if q == p && x.Lit? then literals[x.text := child] else literals;
    var par := if q == p && x.Par? then child else param;
    var more := nodes[p + [x] := child];
    forall y {:trigger LinkTo(more, q, lits, par, y)} ensures LinkTo(more, q, lits, par, y) {
      assert LinkTo(nodes, q, literals, param, y);
      SameLast(q, y, p, x);
    }
  }

  lemma GrowLeafLinks<T>(nodes: map<Shape, TrieNode<T>>, p: Shape, x: Seg, child: TrieNode<T>)
    requires p in nodes && forall y :: p + [x] + [y] !in nodes
    ensures Links(nodes[p + [x] := child], p + [x], map[], null)
  {
    assert (p + [x])[..|p + [x]| - 1] == p;
    var more, leaf, none: map<string, TrieNode<T>> := nodes[p + [x] := child], p + [x], map[];
    var nobody: TrieNode?<T> := null;
    forall y {:trigger LinkTo(more, leaf, none, nobody, y)} ensures LinkTo(more, leaf, none, nobody, y) {
      assert |leaf + [y]| != |leaf|;
    }
  }

  class Router<T> {
    const root: TrieNode<T>
    var templates: map<string, string>
    // Where every node sits, and the flat list the trie stands for.
    ghost var nodes: map<Shape, TrieNode<T>>
    ghost var routes: seq<Route<T>>

    ghost function Footprint(): set<object>
      reads this
    {
      set p | p in nodes :: nodes[p]
    }

    ghost predicate LinkedAt(p: Shape)
      requires p in nodes
      reads this, nodes[p]
    {
      Links(nodes, p, nodes[p].literals, nodes[p].param)
    }

    ghost predicate Linked()
      reads this, Footprint()
    {
      && [] in nodes && nodes[[]] == root
      && (forall p, q | p in nodes && q in nodes && nodes[p] == nodes[q] :: p == q)
      && (forall p {:trigger LinkedAt(p)} | p in nodes :: LinkedAt(p))
    }

    /** Where a segment can lead from `p`. */
    lemma ChildrenOf(p: Shape, seg: string)
      requires Linked() && p in nodes
      ensures LinkTo(nodes, p, nodes[p].literals, nodes[p].param, Lit(seg))
      ensures LinkTo(nodes, p, nodes[p].literals, nodes[p].param, Par)
    {
      assert LinkedAt(p);
    }

    /** The handlers at `p` are the routes of that shape, by verb. */
    ghost predicate HoldsAt(p: Shape)
      requires p in nodes
      reads this, nodes[p]
    {
      NodeServes(routes, p, nodes[p].handlers, nodes[p].methods)
    }

    ghost predicate Valid()
      reads this, Footprint()
    {
      && Linked()
      && (forall p {:trigger HoldsAt(p)} | p in nodes :: HoldsAt(p))
      && Placed(nodes, routes) && NoTwins(routes)
      && (SpaceFree(routes) ==> AllNamed(templates, routes))
    }

    constructor ()
      ensures Valid() && routes == [] && fresh(Footprint())
    {
      root := new TrieNode();
      templates := map[];
      routes := [];
      new;
      nodes := map[[] := root];
      assert LinkedAt([]) && HoldsAt([]);
    }

    /** A registered shape lies `q` below `p`. */
    ghost predicate Offers(p: Shape, q: Shape)
      reads this, Footprint()
    {
      p + q in nodes && nodes[p + q].handlers != map[]
    }

    /** Of the shapes offered below `p`, `rest` is the one the path selects. */
    ghost predicate BestBelow(p: Shape, segs: seq<string>, rest: Shape)
      reads this, Footprint()
    {
      && Offers(p, rest) && Fits(rest, segs)
      && forall q {:trigger Offers(p, q)} :: Offers(p, q) && Fits(q, segs) ==> q == rest || Before(rest, q)
    }

    ghost predicate NoneBelow(p: Shape, segs: seq<string>)
      reads this, Footprint()
    {
      forall q {:trigger Offers(p, q)} :: Offers(p, q) ==> !Fits(q, segs)
    }

    /** `walk`: literal child first, backtracking to the parameter child. `p` is where `n` sits. */
    function Walk(n: TrieNode<T>, ghost p: Shape, segs: seq<string>, values: seq<string>)
      : (got: Option<(TrieNode<T>, seq<string>)>)
      requires Linked() && p in nodes && nodes[p] == n
      reads this, Footprint()
      decreases |segs|
    {
      if |segs| == 0 then
        if n.handlers == map[] then None else Some((n, values))
      else
        var seg := segs[0];
        ChildrenOf(p, seg);
        var first := if seg in n.literals then Walk(n.literals[seg], p + [Lit(seg)], segs[1..], values) else None;
        if first.Some? then first
        else if n.param != null && seg != "" then Walk(n.param, p + [Par], segs[1..], values + [seg])
        else None
    }

    /** The walk refines the flat order: it finds the shape that wins below `p`, with its
        captures, and fails only when nothing below `p` fits. */
    lemma {:induction false} WalkFindsBest(n: TrieNode<T>, p: Shape, segs: seq<string>, values: seq<string>)
      returns (rest: Shape)
      requires Linked() && p in nodes && nodes[p] == n
      ensures var got := Walk(n, p, segs, values);
        && (got.None? ==> NoneBelow(p, segs))
        && (got.Some? ==> BestBelow(p, segs, rest) && nodes[p + rest] == got.value.0
                          && got.value.1 == values + Captures(rest, segs))
      decreases |segs|
    {
      rest := [];
      if |segs| == 0 {
        assert p + [] == p;
        return;
      }
      var seg := segs[0];
      ChildrenOf(p, seg);
      if seg in n.literals {
        var below := WalkFindsBest(n.literals[seg], p + [Lit(seg)], segs[1..], values);
        if Walk(n.literals[seg], p + [Lit(seg)], segs[1..], values).Some? {
          LiteralBest(p, segs, below);
          return [Lit(seg)] + below;
        }
      } else {
        NothingThere(p + [Lit(seg)], segs[1..]);
      }
      if n.param != null && seg != "" {
        var below := WalkFindsBest(n.param, p + [Par], segs[1..], values + [seg]);
        if Walk(n.param, p + [Par], segs[1..], values + [seg]).Some? {
          ParamBest(p, segs, below);
          assert values + ([seg] + Captures(below, segs[1..])) == (values + [seg]) + Captures(below, segs[1..]);
          return [Par] + below;
        }
      } else if n.param == null {
        NothingThere(p + [Par], segs[1..]);
      }
      NoneFits(p, segs);
    }

    lemma NothingThere(p: Shape, segs: seq<string>)
      requires Linked() && p !in nodes
      ensures NoneBelow(p, segs)
    {
      forall q: Shape ensures !Offers(p, q) {
        if Offers(p, q) {
          PrefixesIn(p, q);
        }
      }
    }

    lemma LiteralBest(p: Shape, segs: seq<string>, rest: Shape)
      requires Linked() && segs != [] && BestBelow(p + [Lit(segs[0])], segs[1..], rest)
      ensures BestBelow(p, segs, [Lit(segs[0])] + rest)
      ensures p + ([Lit(segs[0])] + rest) == (p + [Lit(segs[0])]) + rest
      ensures Captures([Lit(segs[0])] + rest, segs) == Captures(rest, segs[1..])
    {
      Above(p, Lit(segs[0]), rest, segs);
      forall q: Shape | Offers(p, q) && Fits(q, segs)
        ensures q == [Lit(segs[0])] + rest || Before([Lit(segs[0])] + rest, q)
      {
        Below(p, q, segs);
        if q[0].Par? {
          LiteralFirst(segs[0], rest, q[1..]);
        } else if q[1..] != rest {
          BeforeCons(Lit(segs[0]), rest, q[1..]);
        }
      }
    }

    lemma ParamBest(p: Shape, segs: seq<string>, rest: Shape)
      requires Linked() && segs != [] && segs[0] != "" && BestBelow(p + [Par], segs[1..], rest)
      requires NoneBelow(p + [Lit(segs[0])], segs[1..])
      ensures BestBelow(p, segs, [Par] + rest)
      ensures p + ([Par] + rest) == (p + [Par]) + rest
      ensures Captures([Par] + rest, segs) == [segs[0]] + Captures(rest, segs[1..])
    {
      Above(p, Par, rest, segs);
      forall q: Shape | Offers(p, q) && Fits(q, segs)
        ensures q == [Par] + rest || Before([Par] + rest, q)
      {
        Below(p, q, segs);
        assert q[0] == Par;
        if q[1..] != rest {
          BeforeCons(Par, rest, q[1..]);
        }
      }
    }

    lemma NoneFits(p: Shape, segs: seq<string>)
      requires Linked() && segs != []
      requires NoneBelow(p + [Lit(segs[0])], segs[1..])
      requires segs[0] != "" ==> NoneBelow(p + [Par], segs[1..])
      ensures NoneBelow(p, segs)
    {
      forall q: Shape | Offers(p, q) ensures !Fits(q, segs) {
        if Fits(q, segs) {
          Below(p, q, segs);
        }
      }
    }

    lemma {:induction false} PrefixesIn(p: Shape, q: Shape)
      requires Linked() && p + q in nodes
      ensures p in nodes
      decreases |q|
    {
      if q == [] {
        assert p + q == p;
      } else {
        assert LinkedAt(p + q);
        assert (p + q)[..|p + q| - 1] == p + q[..|q| - 1];
        PrefixesIn(p, q[..|q| - 1]);
      }
    }

    /** A shape offered at `p` that fits is offered by the child its first segment picks. */
    lemma Below(p: Shape, q: Shape, segs: seq<string>)
      requires Linked() && Offers(p, q) && Fits(q, segs) && segs != []
      ensures q == [q[0]] + q[1..] && p + [q[0]] in nodes
      ensures Offers(p + [q[0]], q[1..]) && Fits(q[1..], segs[1..])
      ensures q[0] == Lit(segs[0]) || (q[0] == Par && segs[0] != "")
    {
      assert p + q == (p + [q[0]]) + q[1..];
      PrefixesIn(p + [q[0]], q[1..]);
    }

    lemma Above(p: Shape, x: Seg, rest: Shape, segs: seq<string>)
      requires segs != [] && Offers(p + [x], rest) && Fits(rest, segs[1..])
      requires x == Lit(segs[0]) || (x == Par && segs[0] != "")
      ensures Offers(p, [x] + rest) && Fits([x] + rest, segs)
      ensures p + ([x] + rest) == (p + [x]) + rest
      ensures Captures([x] + rest, segs) == (if x.Par? then [segs[0]] else []) + Captures(rest, segs[1..])
    {
      assert p + ([x] + rest) == (p + [x]) + rest;
      assert ([x] + rest)[1..] == rest;
    }

    /** `Match`, against the flat list the trie stands for. */
    method Match(verb: string, escapedPath: string) returns (res: Answer<T>)
      requires Valid()
      ensures Matches(routes, ToUpper(verb), SplitPath(escapedPath), res)
    {
      var segs := SplitPath(escapedPath);
      var got := Walk(root, [], segs, []);
      ghost var shape := WalkFindsBest(root, [], segs, []);
      res := Answer(None, [], false, false, []);
      if got.None? {
        NoneMatches(segs);
        return;
      }
      var (n, values) := got.value;
      assert [] + shape == shape && [] + Captures(shape, segs) == Captures(shape, segs);
      BestSelects(segs, shape);
      assert HoldsAt(shape);
      res := res.(pathMatched := true, allow := n.methods);
      var v := ToUpper(verb);
      var decides := if v !in n.handlers && v == "HEAD" then "GET" else v;
      assert decides == DecidingVerb(routes, v, shape);
      if decides !in n.handlers {
        assert MatchesAt(routes, v, segs, res, shape);
        return;
      }
      var entry := n.handlers[decides];
      ghost var i := FromRoute(shape, decides);
      var params := Zip(entry.paramNames, values);
      res := res.(payload := Some(entry.payload), params := params, found := true);
      NamesMatchCaptures(SplitPath(routes[i].template), segs);
      assert Claims(routes[i], decides, shape) && AnswersFrom(routes[i], segs, res);
      assert MatchesAt(routes, v, segs, res, shape);
    }

    lemma OffersRegistered(q: Shape)
      requires Valid()
      ensures Offers([], q) <==> Registered(routes, q)
    {
      assert [] + q == q;
      if Offers([], q) {
        assert HoldsAt(q);
        var v :| v in nodes[q].handlers;
        var i :| 0 <= i < |routes| && Claims(routes[i], v, q);
        assert RouteShape(routes[i]) == q;
      }
      if Registered(routes, q) {
        var i :| 0 <= i < |routes| && RouteShape(routes[i]) == q;
        assert RouteShape(routes[i]) in nodes && HoldsAt(q) && Held(routes[i], nodes[q].handlers);
      }
    }

    lemma NoneMatches(segs: seq<string>)
      requires Valid() && NoneBelow([], segs)
      ensures !exists shape :: Registered(routes, shape) && Fits(shape, segs)
    {
      forall q | Registered(routes, q) ensures !Fits(q, segs) {
        OffersRegistered(q);
      }
    }

    lemma BestSelects(segs: seq<string>, shape: Shape)
      requires Valid() && BestBelow([], segs, shape)
      ensures Selects(routes, segs, shape)
    {
      OffersRegistered(shape);
      forall q: Shape {:trigger Registered(routes, q)} | Registered(routes, q) && Fits(q, segs)
        ensures q == shape || Before(shape, q)
      {
        OffersRegistered(q);
      }
    }

    lemma FromRoute(shape: Shape, v: string) returns (i: nat)
      requires Valid() && shape in nodes && v in nodes[shape].handlers
      ensures i < |routes| && Claims(routes[i], v, shape)
      ensures nodes[shape].handlers[v] == Handler(routes[i].payload, NamesOf(SplitPath(routes[i].template)))
    {
      assert HoldsAt(shape);
      i :| 0 <= i < |routes| && Claims(routes[i], v, shape);
      assert Held(routes[i], nodes[shape].handlers);
    }

    /** The loop that gives the positional values the names of the route that matched. */
    method Zip(names: seq<string>, values: seq<string>) returns (params: seq<Param>)
      ensures |params| == if |names| < |values| then |names| else |values|
      ensures forall i | 0 <= i < |params| :: HoldsDecoded(params[i], names[i], values[i])
    {
      params := [];
      for i := 0 to |values|
        invariant |params| == i <= |names|
        invariant forall j | 0 <= j < i :: HoldsDecoded(params[j], names[j], values[j])
      {
        if i >= |names| {
          break;
        }
        var v := PathUnescape(values[i]);
        params := params + [Param(names[i], if v.Some? then v.value else values[i])];
      }
    }

    /** The child for one segment, grown if the trie has no such branch yet. */
    method Branch(n: TrieNode<T>, ghost p: Shape, seg: string) returns (child: TrieNode<T>)
      requires Valid() && p in nodes && nodes[p] == n
      modifies this`nodes, Footprint()
      ensures Valid() && p + [SegOf(seg)] in nodes && nodes[p + [SegOf(seg)]] == child
      ensures forall q | q in old(nodes) :: q in nodes && nodes[q] == old(nodes)[q]
      ensures fresh(Footprint() - old(Footprint()))
      ensures p + [SegOf(seg)] in old(nodes) ==> nodes == old(nodes) && unchanged(old(Footprint()))
    {
      ChildrenOf(p, seg);
      if IsParam(seg) {
        if n.param == null {
          child := Grow(n, p, Par);
        } else {
          child := n.param;
        }
      } else if seg !in n.literals {
        child := Grow(n, p, Lit(seg));
      } else {
        child := n.literals[seg];
      }
    }

    /** The node a template ends at, growing the trie where it has no branch yet. A shape
        the trie already has costs nothing and changes nothing. */
    method Descend(template: string) returns (cur: TrieNode<T>, names: seq<string>)
      requires Valid()
      modifies this`nodes, Footprint()
      ensures Valid()
      ensures TemplateShape(template) in nodes && nodes[TemplateShape(template)] == cur
      ensures names == NamesOf(SplitPath(template))
      ensures forall p | p in old(nodes) :: p in nodes && nodes[p] == old(nodes)[p]
      ensures fresh(Footprint() - old(Footprint()))
      ensures TemplateShape(template) in old(nodes) ==> nodes == old(nodes) && unchanged(old(Footprint()))
    {
      var segs := SplitPath(template);
      ghost var shape := TemplateShape(template);
      cur, names := root, [];
      for i := 0 to |segs|
        invariant Valid()
        invariant shape[..i] in nodes && nodes[shape[..i]] == cur
        invariant names == NamesOf(segs[..i])
        invariant forall p | p in old(nodes) :: p in nodes && nodes[p] == old(nodes)[p]
        invariant fresh(Footprint() - old(Footprint()))
        invariant shape in old(nodes) ==> nodes == old(nodes) && unchanged(old(Footprint()))
      {
        ShapeGrows(segs, i);
        NamesGrow(segs, i);
        if shape in old(nodes) {
          PrefixesIn(shape[..i + 1], shape[i + 1..]);
        }
        if IsParam(segs[i]) {
          names := names + [ParamName(segs[i])];
        }
        cur := Branch(cur, shape[..i], segs[i]);
      }
      assert shape[..|segs|] == shape && segs[..|segs|] == segs;
    }

    lemma NoOrphans(q: Shape)
      requires Linked()
      ensures forall y :: q + [y] in nodes ==> q in nodes
    {
      forall y | q + [y] in nodes ensures q in nodes {
        assert LinkedAt(q + [y]);
        assert (q + [y])[..|q|] == q;
      }
    }

    /** One new, empty child. */
    method Hang(n: TrieNode<T>, ghost p: Shape, x: Seg) returns (child: TrieNode<T>)
      requires Linked() && p in nodes && nodes[p] == n && p + [x] !in nodes
      modifies this`nodes, n`literals, n`param
      ensures Linked() && fresh(child) && nodes == old(nodes)[p + [x] := child]
      ensures child.handlers == map[] && child.methods == []
    {
      NoOrphans(p + [x]);
      child := new TrieNode();
      match x {
        case Par => n.param := child;
        case Lit(text) => n.literals := n.literals[text := child];
      }
      nodes := nodes[p + [x] := child];
      forall q | q in nodes ensures LinkedAt(q) {
        if q == p + [x] {
          GrowLeafLinks(old(nodes), p, x, child);
        } else {
          assert old(LinkedAt(q));
          GrowKeepsLinks(old(nodes), p, x, child, q, old(nodes[q].literals), old(nodes[q].param));
        }
      }
    }

    /** A new child stands for no route, so the trie stands for the same list. */
    method Grow(n: TrieNode<T>, ghost p: Shape, x: Seg) returns (child: TrieNode<T>)
      requires Valid() && p in nodes && nodes[p] == n && p + [x] !in nodes
      modifies this`nodes, n`literals, n`param
      ensures Valid()
      ensures fresh(child) && nodes == old(nodes)[p + [x] := child]
    {
      Unregistered(p + [x]);
      child := Hang(n, p, x);
      forall q | q in nodes ensures HoldsAt(q) {
        assert q != p + [x] ==> old(HoldsAt(q)) && nodes[q] == old(nodes)[q];
      }
      assert Placed(nodes, routes);
    }

    lemma Unregistered(q: Shape)
      requires Valid() && q !in nodes
      ensures NodeServes(routes, q, map[], [])
    {
      assert forall i | 0 <= i < |routes| :: RouteShape(routes[i]) in nodes;
    }

    /** `Add`: the template joins the list, unless its verb and shape are taken; a refused
        one changes nothing and is told which earlier route it meets. */
    method Add(verb: string, template: string, payload: T) returns (conflict: Option<Conflict>)
      requires Valid()
      modifies this, Footprint()
      ensures Valid() && fresh(Footprint() - old(Footprint()))
      ensures conflict.None? <==> !Taken(old(routes), ToUpper(verb), TemplateShape(template))
      ensures conflict.None? ==> routes == old(routes) + [Route(ToUpper(verb), template, payload)]
      ensures conflict.Some? ==> unchanged(this) && unchanged(old(Footprint()))
      ensures conflict.Some? && SpaceFree(routes) && ' ' !in verb ==>
        Blames(conflict.value, ToUpper(verb), template, routes)
    {
      var v := ToUpper(verb);
      ghost var shape := TemplateShape(template);
      if Taken(routes, v, shape) {
        TakenSits(v, shape);
      }
      var cur, names := Descend(template);
      assert HoldsAt(shape);
      var key := TemplateKey(v, template);
      if v in cur.handlers {
        conflict := Some(Conflict(v, template, if key in templates then templates[key] else ""));
        if SpaceFree(routes) && ' ' !in verb {
          NamesEarlier(v, template);
        }
        return;
      }
      conflict := None;
      Attach(cur, v, template, Handler(payload, names));
    }

    lemma TakenSits(v: string, shape: Shape)
      requires Valid() && Taken(routes, v, shape)
      ensures shape in nodes
    {
      var i :| 0 <= i < |routes| && Claims(routes[i], v, shape);
    }

    lemma NamesEarlier(v: string, template: string)
      requires Valid() && SpaceFree(routes) && ' ' !in v && Taken(routes, v, TemplateShape(template))
      ensures TemplateKey(v, template) in templates
      ensures Blames(Conflict(v, template, templates[TemplateKey(v, template)]), v, template, routes)
    {
      var i :| 0 <= i < |routes| && Claims(routes[i], v, TemplateShape(template));
      assert Named(templates, routes[i]);
      NormaliseIsShape(routes[i].template, template);
    }

    method Attach(n: TrieNode<T>, v: string, template: string, entry: Handler<T>)
      requires Valid() && TemplateShape(template) in nodes && nodes[TemplateShape(template)] == n
      requires v !in n.handlers && entry.paramNames == NamesOf(SplitPath(template))
      modifies this`routes, this`templates, n`handlers, n`methods
      ensures Valid()
      ensures routes == old(routes) + [Route(v, template, entry.payload)]
    {
      ghost var shape := TemplateShape(template);
      ghost var r := Route(v, template, entry.payload);
      assert HoldsAt(shape);
      n.handlers := n.handlers[v := entry];
      n.methods := Inserted(n.methods, v);
      routes := routes + [r];
      templates := templates[TemplateKey(v, template) := v + " " + template];
      forall q | q in nodes ensures LinkedAt(q) {
        assert old(LinkedAt(q));
      }
      NodeServesMore(old(routes), r, shape, old(n.handlers), old(n.methods), entry);
      forall q | q in nodes && q != shape ensures HoldsAt(q) {
        assert old(HoldsAt(q));
        NodeServesMore(old(routes), r, q, nodes[q].handlers, nodes[q].methods, entry);
      }
      PlacedMore(nodes, old(routes), r);
      NoTwinsGrow(old(routes), r);
      if SpaceFree(routes) {
        NamesKept(old(templates), old(routes), r);
      }
    }
  }

  lemma SameLast<A>(p: seq<A>, x: A, q: seq<A>, y: A)
    ensures p + [x] == q + [y] <==> p == q && x == y
  {
    if p + [x] == q + [y] {
      assert (p + [x])[|p|] == (q + [y])[|q|];
      assert (p + [x])[..|p|] == p && (q + [y])[..|q|] == q;
    }
  }

  lemma PlacedMore<T>(nodes: map<Shape, TrieNode<T>>, routes: seq<Route<T>>, r: Route<T>)
    requires Placed(nodes, routes) && RouteShape(r) in nodes
    ensures Placed(nodes, routes + [r])
  {
  }

  lemma NoTwinsGrow<T>(routes: seq<Route<T>>, r: Route<T>)
    requires NoTwins(routes) && !Taken(routes, r.verb, RouteShape(r))
    ensures NoTwins(routes + [r])
  {
    var more := routes + [r];
    assert forall i | 0 <= i < |routes| :: more[i] == routes[i];
  }

  lemma TakenInEither<T>(a: seq<Route<T>>, b: seq<Route<T>>, verb: string, shape: Shape) returns (i: nat)
    requires Taken(a + b, verb, shape)
    ensures i < |a| + |b| && Claims(if i < |a| then a[i] else b[i - |a|], verb, shape)
    ensures i < |a| ==> Taken(a, verb, shape)
  {
    i :| 0 <= i < |a + b| && Claims((a + b)[i], verb, shape);
  }

  lemma NoTwinsParts<T>(a: seq<Route<T>>, b: seq<Route<T>>)
    requires NoTwins(a + b)
    ensures NoTwins(a) && NoTwins(b)
    ensures forall j | 0 <= j < |b| :: !Taken(a, b[j].verb, RouteShape(b[j]))
  {
    var all := a + b;
    assert forall i | 0 <= i < |a| :: all[i] == a[i];
    assert forall j | 0 <= j < |b| :: all[|a| + j] == b[j];
  }

  lemma TwinsStay<T>(routes: seq<Route<T>>, i: nat)
    requires i < |routes| && Taken(routes[..i], routes[i].verb, RouteShape(routes[i]))
    ensures !NoTwins(routes)
  {
    var j :| 0 <= j < i && Claims(routes[..i][j], routes[i].verb, RouteShape(routes[i]));
    assert Claims(routes[j], routes[i].verb, RouteShape(routes[i]));
  }

  lemma TakenGrows<T>(routes: seq<Route<T>>, r: Route<T>, verb: string, shape: Shape)
    ensures Taken(routes + [r], verb, shape) <==> Taken(routes, verb, shape) || Claims(r, verb, shape)
  {
    var more := routes + [r];
    if Taken(routes, verb, shape) {
      var i :| 0 <= i < |routes| && Claims(routes[i], verb, shape);
      assert more[i] == routes[i];
    }
    assert more[|routes|] == r;
  }

  lemma ShapeGrows(segs: seq<string>, i: nat)
    requires i < |segs|
    ensures var shape := ShapeOf(segs);
            shape[..i + 1] == shape[..i] + [SegOf(segs[i])] && shape == shape[..i + 1] + shape[i + 1..]
  {
  }

  lemma NamesGrow(segs: seq<string>, i: nat)
    requires i < |segs|
    ensures NamesOf(segs[..i + 1]) == NamesOf(segs[..i]) + if IsParam(segs[i]) then [ParamName(segs[i])] else []
  {
    assert segs[..i + 1] == segs[..i] + [segs[i]];
    NamesSnoc(segs[..i], segs[i]);
  }

  lemma {:induction false} NamesSnoc(segs: seq<string>, seg: string)
    ensures NamesOf(segs + [seg]) == NamesOf(segs) + if IsParam(seg) then [ParamName(seg)] else []
  {
    if segs != [] {
      NamesSnoc(segs[1..], seg);
      assert (segs + [seg])[1..] == segs[1..] + [seg];
    }
  }

  /** `append` and `sort.Strings`, on a list already sorted. */
  function Inserted(vs: seq<string>, v: string): (out: seq<string>)
    requires Ascending(vs) && v !in vs
    ensures Ascending(out) && forall w :: w in out <==> w in vs || w == v
  {
    if vs == [] then [v]
    else
      LeqTotal(v, vs[0]);
      if Leq(v, vs[0]) then
        forall w | w in vs ensures Leq(v, w) { LeqTotal(w, w); LeqTrans(v, vs[0], w); }
        [v] + vs
      else
        var rest := Inserted(vs[1..], v);
        assert vs == [vs[0]] + vs[1..];
        assert forall w | w in rest :: Leq(vs[0], w) && w != vs[0];
        [vs[0]] + rest
  }
}
