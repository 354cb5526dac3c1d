/** The names a merge hands out and what they do to the document, foretold from the
    configuration and the sources. */
module Foresight {
  import opened Wrappers
  import opened Text
  import opened JsonPointer
  import opened Nodes
  import opened Operations
  import opened Copying
  import opened Documents
  import M = Merger

  // ---- the names to expect ----

  /** The namespace the components of a spec are published under. */
  function NamespaceOf(jobs: seq<Job>, spec: SpecId): string {
    if jobs == [] then ""
    else if jobs[0].spec == spec then jobs[0].namespace
    else NamespaceOf(jobs[1..], spec)
  }

  predicate OneNamespace(jobs: seq<Job>) {
    forall i, j | i in jobs && j in jobs && i.spec == j.spec :: i.namespace == j.namespace
  }

  function Expected(jobs: seq<Job>, k: Key): CompId {
    CompId(k.id.section, NamespaceOf(jobs, k.spec) + Capitalise(k.id.name))
  }

  function ExpectedHomes(jobs: seq<Job>, keys: set<Key>): Homes {
    map k | k in keys :: Expected(jobs, k)
  }

  /** No two components are expected in one slot. */
  predicate Apart(jobs: seq<Job>, keys: set<Key>) {
    forall j, k {:trigger Expected(jobs, j), Expected(jobs, k)}
      | j in keys && k in keys && Expected(jobs, j) == Expected(jobs, k) ::
      j == k
  }

  /** What the configuration and the sources must be like for the names to be told from them:
      one namespace a spec, no two components expected in one slot and, for dedupe, free
      un-namespaced slots. */
  predicate Foreseeable(jobs: seq<Job>, keys: set<Key>, opt: Options) {
    OneNamespace(jobs) && Apart(jobs, keys) && (opt.dedupe ==> PlainFree(ExpectedHomes(jobs, keys)))
  }

  predicate Goes(specs: Specs, opt: Options, keys: set<Key>, k: Key) {
    opt.dedupe && Collapses(specs, keys, k)
  }

  function ForetoldHome(specs: Specs, jobs: seq<Job>, opt: Options, keys: set<Key>, k: Key): CompId {
    if Goes(specs, opt, keys, k) then Unprefixed(k) else Expected(jobs, k)
  }

  /** The namespaced name first; the plain one for what collapses. */
  function Foretold(specs: Specs, jobs: seq<Job>, opt: Options, keys: set<Key>): Names {
    Names(ExpectedHomes(jobs, keys), map k | k in keys :: ForetoldHome(specs, jobs, opt, keys, k))
  }

  lemma {:induction false} NamespaceIs(jobs: seq<Job>, j: Job)
    requires OneNamespace(jobs) && j in jobs
    ensures NamespaceOf(jobs, j.spec) == j.namespace
  {
    if jobs[0].spec == j.spec {
      assert jobs[0] in jobs;
    } else {
      assert forall i | i in jobs[1..] :: i in jobs;
      NamespaceIs(jobs[1..], j);
    }
  }

  lemma CandidateLonger(namespace: string, name: string, n: nat)
    requires n >= 1
    ensures n != 1 ==> |M.Candidate(namespace, name, n)| > |namespace + Capitalise(name)|
  {
  }

  /** A name with a number is longer than the plain one it gave way to, whose owner has the
      plain name it should have; so nobody gave way. */
  lemma {:induction false} FirstIsExpected(jobs: seq<Job>, names: Names, k: Key)
    requires FirstRight(jobs, names) && OneNamespace(jobs) && Apart(jobs, names.first.Keys) && k in names.first
    ensures names.first[k] == Expected(jobs, k)
    decreases |names.first[k].name|
  {
    assert NamedBy(jobs, names.first.Values, k, names.first[k].name);
    var j, n :| j in jobs && j.spec == k.spec && M.IsNth(names.first.Values, j.namespace, k.id, names.first[k].name, n);
    NamespaceIs(jobs, j);
    if n != 1 {
      assert M.Candidate(j.namespace, k.id.name, 1) == j.namespace + Capitalise(k.id.name);
      assert Expected(jobs, k) in names.first.Values;
      var i :| i in names.first && names.first[i] == Expected(jobs, k);
      CandidateLonger(j.namespace, k.id.name, n);
      FirstIsExpected(jobs, names, i);
      assert i == k;
    }
  }

  lemma FirstForetold(jobs: seq<Job>, names: Names)
    requires FirstRight(jobs, names) && OneNamespace(jobs) && Apart(jobs, names.first.Keys)
    ensures names.first == ExpectedHomes(jobs, names.first.Keys)
  {
    forall k | k in names.first ensures names.first[k] == Expected(jobs, k) {
      FirstIsExpected(jobs, names, k);
    }
  }

  lemma FinalForetold(specs: Specs, jobs: seq<Job>, opt: Options, names: Names)
    requires names.first.Keys == names.final.Keys && names.first == ExpectedHomes(jobs, names.first.Keys)
    requires !opt.dedupe ==> names.final == names.first
    requires opt.dedupe ==>
             forall k {:trigger CollapsedRight(specs, names, k)} | k in names.first :: CollapsedRight(specs, names, k)
    ensures names == Foretold(specs, jobs, opt, names.first.Keys)
  {
    var expected := Foretold(specs, jobs, opt, names.first.Keys);
    forall k | k in names.first ensures names.final[k] == expected.final[k] {
      assert opt.dedupe ==> CollapsedRight(specs, names, k);
      assert names.first[k] == Expected(jobs, k);
    }
    assert names.final == expected.final;
  }

  /** The names are the ones foretold. */
  lemma NamesForetold(specs: Specs, jobs: seq<Job>, opt: Options, names: Names)
    requires NamesWork(specs, jobs, opt, names) && Foreseeable(jobs, names.first.Keys, opt)
    ensures names == Foretold(specs, jobs, opt, names.first.Keys)
  {
    FirstForetold(jobs, names);
    FinalForetold(specs, jobs, opt, names);
  }

  /** The plain name followed by a number. */
  function Numbered(section: string, plain: string, n: nat): CompId {
    CompId(section, plain + Itoa(n))
  }

  lemma CandidateIs(namespace: string, section: string, name: string, n: nat)
    requires n >= 1
    ensures CompId(section, M.Candidate(namespace, name, n))
            == if n == 1 then CompId(section, namespace + Capitalise(name))
               else Numbered(section, namespace + Capitalise(name), n)
  {
    var plain := namespace + Capitalise(name);
    assert plain + "" == plain;
  }

  /** Names are tried in turn: the plain one, then with 2, 3 and so on behind it, and one is
      passed over only because another component has it. */
  lemma NamedInTurn(jobs: seq<Job>, names: Names, k: Key)
    requires FirstRight(jobs, names) && OneNamespace(jobs) && k in names.first
    ensures var section, plain := k.id.section, NamespaceOf(jobs, k.spec) + Capitalise(k.id.name);
      names.first[k] == CompId(section, plain)
      || (CompId(section, plain) in names.first.Values
          && exists n: nat :: n >= 2 && names.first[k] == Numbered(section, plain, n)
               && forall m: nat | 2 <= m < n :: Numbered(section, plain, m) in names.first.Values)
  {
    var section := k.id.section;
    assert NamedBy(jobs, names.first.Values, k, names.first[k].name);
    var j, n: nat :| j in jobs && j.spec == k.spec
                     && M.IsNth(names.first.Values, j.namespace, k.id, names.first[k].name, n);
    NamespaceIs(jobs, j);
    CandidateIs(j.namespace, section, k.id.name, n);
    if n >= 2 {
      CandidateIs(j.namespace, section, k.id.name, 1);
      forall m: nat | 2 <= m < n
        ensures Numbered(section, j.namespace + Capitalise(k.id.name), m) in names.first.Values
      {
        CandidateIs(j.namespace, section, k.id.name, m);
      }
    }
  }

  // ---- the document, foretold ----

  /** So all that `Published` says of names it says of ones computed beforehand. */
  lemma PublishedForetold(specs: Specs, jobs: seq<Job>, opt: Options, doc: Document, names: Names, keys: set<Key>)
    requires Published(specs, jobs, opt, doc, names)
    requires M.ExactlyReachable(specs, Roots(jobs), keys) && Foreseeable(jobs, keys, opt)
    ensures names == Foretold(specs, jobs, opt, keys)
  {
    assert keys == names.first.Keys by {
      forall k ensures k in keys <==> k in names.first.Keys {
        assert k in keys <==> M.Reachable(specs, Roots(jobs), k);
      }
    }
    NamesForetold(specs, jobs, opt, names);
  }

  /** No gateway scheme has the name of a slot given up. */
  predicate GivenUpFree(specs: Specs, jobs: seq<Job>, opt: Options, keys: set<Key>) {
    forall k {:trigger Expected(jobs, k)} | k in keys && Goes(specs, opt, keys, k) ::
      Expected(jobs, k) !in SchemeIds(opt.securitySchemes)
  }

  /** Nor that of a slot a component ends up in. */
  predicate SchemesApart(specs: Specs, jobs: seq<Job>, opt: Options, keys: set<Key>) {
    && GivenUpFree(specs, jobs, opt, keys)
    && forall k {:trigger ForetoldHome(specs, jobs, opt, keys, k)} | k in keys ::
         ForetoldHome(specs, jobs, opt, keys, k) !in SchemeIds(opt.securitySchemes)
  }

  /** No reference of the node has a tail into a component that collapses. */
  predicate Uncut(specs: Specs, opt: Options, keys: set<Key>, spec: SpecId, n: Node) {
    forall q | q in Refs(n) && ParseLocalRef(q).Some? && ParseLocalRef(q).value.tail != "" ::
      !Goes(specs, opt, keys, M.Key(spec, ParseLocalRef(q).value.id))
  }

  /** Of components that collapse the one with the least name is kept. */
  predicate Kept(specs: Specs, jobs: seq<Job>, opt: Options, keys: set<Key>, k: Key) {
    Goes(specs, opt, keys, k) ==>
      forall j | j in keys && j.id == k.id :: Leq(Expected(jobs, k).name, Expected(jobs, j).name)
  }

  predicate AllUncut(specs: Specs, jobs: seq<Job>, opt: Options, keys: set<Key>) {
    && (forall j | j in jobs :: Uncut(specs, opt, keys, j.spec, j.node))
    && (forall k | k in keys && M.Known(specs, k) && Kept(specs, jobs, opt, keys, k) ::
          Uncut(specs, opt, keys, k.spec, M.NodeOf(specs, k)))
  }

  lemma TwinsGo(specs: Specs, opt: Options, keys: set<Key>, j: Key, k: Key)
    requires Goes(specs, opt, keys, k) && j in keys && k in keys && j.id == k.id
    ensures Goes(specs, opt, keys, j)
  {
    assert SamePrint(specs, j, k);
    forall i | i in keys && i.id == j.id ensures SamePrint(specs, i, j) {
      assert SamePrint(specs, i, k);
    }
    if j != k {
      assert k in keys && k != j && k.id == j.id;
    }
  }

  lemma SharedHome(specs: Specs, jobs: seq<Job>, opt: Options, keys: set<Key>, j: Key, k: Key)
    requires Foreseeable(jobs, keys, opt) && j in keys && k in keys
    ensures ForetoldHome(specs, jobs, opt, keys, j) == ForetoldHome(specs, jobs, opt, keys, k)
            <==> j == k || (j.id == k.id && Goes(specs, opt, keys, k))
  {
    var first := ExpectedHomes(jobs, keys);
    assert first[j] in first.Values && first[k] in first.Values;
    assert opt.dedupe ==> Unprefixed(j) !in first.Values && Unprefixed(k) !in first.Values;
    if j.id == k.id && Goes(specs, opt, keys, k) {
      TwinsGo(specs, opt, keys, j, k);
    }
    if j.id == k.id && Goes(specs, opt, keys, j) {
      TwinsGo(specs, opt, keys, k, j);
    }
  }

  lemma KeptAtHome(specs: Specs, jobs: seq<Job>, opt: Options, keys: set<Key>, k: Key)
    requires Foreseeable(jobs, keys, opt) && k in keys
    ensures AtHome(Foretold(specs, jobs, opt, keys), k) <==> Kept(specs, jobs, opt, keys, k)
  {
    var names := Foretold(specs, jobs, opt, keys);
    LeqTotal(Expected(jobs, k).name, Expected(jobs, k).name);
    forall j | j in keys
      ensures names.final[j] == names.final[k] <==> j == k || (j.id == k.id && Goes(specs, opt, keys, k))
    {
      SharedHome(specs, jobs, opt, keys, j, k);
    }
  }

  /** A reference of something reachable follows exactly when it is whole or its component
      does not collapse. */
  lemma FollowsForetold(specs: Specs, jobs: seq<Job>, opt: Options, keys: set<Key>, spec: SpecId, n: Node)
    requires Foreseeable(jobs, keys, opt) && M.Parses(n) && M.Targets(spec, n) <= keys
    ensures NodeFollowed(Foretold(specs, jobs, opt, keys), spec, n) <==> Uncut(specs, opt, keys, spec, n)
  {
    var names := Foretold(specs, jobs, opt, keys);
    forall q | q in Refs(n)
      ensures RefFollowed(names, spec, q) <==>
              ParseLocalRef(q).value.tail == "" || !Goes(specs, opt, keys, M.Key(spec, ParseLocalRef(q).value.id))
    {
      M.TargetOf(spec, n, q);
      MovesAway(specs, jobs, opt, keys, M.Key(spec, ParseLocalRef(q).value.id));
    }
    if Uncut(specs, opt, keys, spec, n) {
      forall q | q in Refs(n) ensures RefFollowed(names, spec, q) {
        assert M.Parses(n);
      }
    } else {
      var q :| q in Refs(n) && ParseLocalRef(q).Some? && ParseLocalRef(q).value.tail != ""
               && Goes(specs, opt, keys, M.Key(spec, ParseLocalRef(q).value.id));
      assert !RefFollowed(names, spec, q);
    }
  }

  lemma MovesAway(specs: Specs, jobs: seq<Job>, opt: Options, keys: set<Key>, k: Key)
    requires Foreseeable(jobs, keys, opt) && k in keys
    ensures ForetoldHome(specs, jobs, opt, keys, k) != Expected(jobs, k) <==> Goes(specs, opt, keys, k)
  {
    var first := ExpectedHomes(jobs, keys);
    assert first[k] in first.Values;
    assert opt.dedupe ==> Unprefixed(k) !in first.Values;
  }

  lemma NotTakenBy(specs: Specs, jobs: seq<Job>, opt: Options, keys: set<Key>, j: Key, k: Key)
    requires Foreseeable(jobs, keys, opt) && j in keys && k in keys && Goes(specs, opt, keys, k)
    ensures ForetoldHome(specs, jobs, opt, keys, j) != Expected(jobs, k)
  {
    var first := ExpectedHomes(jobs, keys);
    assert first[k] in first.Values;
    assert Unprefixed(j) !in first.Values;
  }

  lemma NoneRetakenForetold(specs: Specs, jobs: seq<Job>, opt: Options, keys: set<Key>)
    requires Foreseeable(jobs, keys, opt) && GivenUpFree(specs, jobs, opt, keys)
    ensures NoneRetaken(Foretold(specs, jobs, opt, keys), opt.securitySchemes)
  {
    var names := Foretold(specs, jobs, opt, keys);
    forall k, j | k in keys && j in keys && names.final[k] != names.first[k] ensures names.final[j] != names.first[k] {
      MovesAway(specs, jobs, opt, keys, k);
      NotTakenBy(specs, jobs, opt, keys, j, k);
    }
  }

  /** Where a reference lands: its component has a listed section, and the reference is whole or
      the component does not collapse. */
  lemma LandsUnlessCollapsed(specs: Specs, jobs: seq<Job>, opt: Options, keys: set<Key>, spec: SpecId, q: string,
                             ref: Ref)
    requires Foreseeable(jobs, keys, opt) && GivenUpFree(specs, jobs, opt, keys)
    requires ParseLocalRef(q) == Some(ref) && M.Key(spec, ref.id) in keys
    ensures RefLands(Foretold(specs, jobs, opt, keys), opt.securitySchemes, spec, q) <==>
            ref.id.section in SECTIONS && (ref.tail == "" || !Goes(specs, opt, keys, M.Key(spec, ref.id)))
  {
    var k, names := M.Key(spec, ref.id), Foretold(specs, jobs, opt, keys);
    MovesAway(specs, jobs, opt, keys, k);
    if Goes(specs, opt, keys, k) {
      forall j | j in keys ensures names.final[j] != names.first[k] {
        NotTakenBy(specs, jobs, opt, keys, j, k);
      }
    } else {
      assert names.final[k] in names.final.Values;
    }
  }

  lemma AllFollowForetold(specs: Specs, jobs: seq<Job>, opt: Options, keys: set<Key>)
    requires Mergeable(specs, jobs) && M.ExactlyReachable(specs, Roots(jobs), keys) && Foreseeable(jobs, keys, opt)
    ensures AllFollowed(specs, jobs, Foretold(specs, jobs, opt, keys)) <==> AllUncut(specs, jobs, opt, keys)
  {
    ReachedRefs(specs, jobs, keys);
    forall j | j in jobs
      ensures NodeFollowed(Foretold(specs, jobs, opt, keys), j.spec, j.node) <==>
              Uncut(specs, opt, keys, j.spec, j.node)
    {
      FollowsForetold(specs, jobs, opt, keys, j.spec, j.node);
    }
    forall k | k in keys
      ensures AtHome(Foretold(specs, jobs, opt, keys), k) <==> Kept(specs, jobs, opt, keys, k)
      ensures NodeFollowed(Foretold(specs, jobs, opt, keys), k.spec, M.NodeOf(specs, k))
              <==> Uncut(specs, opt, keys, k.spec, M.NodeOf(specs, k))
    {
      KeptAtHome(specs, jobs, opt, keys, k);
      FollowsForetold(specs, jobs, opt, keys, k.spec, M.NodeOf(specs, k));
    }
  }

  /** When the document means what its sources mean and nothing in it dangles, told before the
      merge: exactly when every component reached has a section the document carries and no
      reference kept has a tail into a component that collapses. */
  lemma MeaningExactly(specs: Specs, jobs: seq<Job>, opt: Options, doc: Document, names: Names, keys: set<Key>)
    requires Published(specs, jobs, opt, doc, names)
    requires M.ExactlyReachable(specs, Roots(jobs), keys)
    requires Foreseeable(jobs, keys, opt) && SchemesApart(specs, jobs, opt, keys)
    ensures MeansTheSame(specs, jobs, doc.components, doc.operations, names.final)
            && NoDangling(doc, opt.securitySchemes)
            <==> SectionsKnown(keys) && AllUncut(specs, jobs, opt, keys)
  {
    PublishedForetold(specs, jobs, opt, doc, names, keys);
    NoneRetakenForetold(specs, jobs, opt, keys);
    AllFollowForetold(specs, jobs, opt, keys);
    MeaningByNames(specs, jobs, opt, doc, names);
  }

  lemma ComponentByNames(specs: Specs, jobs: seq<Job>, doc: Document, names: Names, schemes: map<string, Node>, k: Key)
    requires MeaningSurvives(specs, jobs, doc, names, schemes) && MeaningNeeds(specs, jobs, doc, names, schemes)
    requires NoneRetaken(names, schemes) && KeysOnce(specs, jobs, names.first.Keys)
    requires k in names.first && NoneHidden(specs, names, schemes, {k})
    ensures ComponentMeans(specs, doc.components, names.final, k) <==> AllFine(specs, names, {k})
  {
  }

  /** The same for one operation, whatever else in the document hides or dangles: it keeps its
      meaning exactly when nothing it reads has a section the document leaves out or goes with a
      tail into a component that collapses. */
  lemma OperationExactly(specs: Specs, jobs: seq<Job>, opt: Options, doc: Document, names: Names, keys: set<Key>,
                         j: Job)
    requires Published(specs, jobs, opt, doc, names) && j in jobs
    requires M.ExactlyReachable(specs, Roots(jobs), keys) && KeysOnce(specs, jobs, keys)
    requires Foreseeable(jobs, keys, opt) && GivenUpFree(specs, jobs, opt, keys)
    requires NoneHidden(specs, Foretold(specs, jobs, opt, keys), opt.securitySchemes, M.Targets(j.spec, j.node))
    ensures OperationMeans(specs, doc.components, doc.operations, j)
            <==> OperationFine(specs, Foretold(specs, jobs, opt, keys), j)
  {
    PublishedForetold(specs, jobs, opt, doc, names, keys);
    NoneRetakenForetold(specs, jobs, opt, keys);
  }

  lemma ComponentExactly(specs: Specs, jobs: seq<Job>, opt: Options, doc: Document, names: Names, keys: set<Key>,
                         k: Key)
    requires Published(specs, jobs, opt, doc, names) && k in keys
    requires M.ExactlyReachable(specs, Roots(jobs), keys) && KeysOnce(specs, jobs, keys)
    requires Foreseeable(jobs, keys, opt) && GivenUpFree(specs, jobs, opt, keys)
    requires NoneHidden(specs, Foretold(specs, jobs, opt, keys), opt.securitySchemes, {k})
    ensures ComponentMeans(specs, doc.components, names.final, k)
            <==> AllFine(specs, Foretold(specs, jobs, opt, keys), {k})
  {
    PublishedForetold(specs, jobs, opt, doc, names, keys);
    NoneRetakenForetold(specs, jobs, opt, keys);
    ComponentByNames(specs, jobs, doc, names, opt.securitySchemes, k);
  }

  // ---- a guard to read off the names ----

  predicate HasJob(jobs: seq<Job>, spec: SpecId) {
    exists j :: j in jobs && j.spec == spec
  }

  /** No namespace begins another or a component's name, and no two names capitalise alike. */
  predicate PlainlyNamed(jobs: seq<Job>, keys: set<Key>) {
    && OneNamespace(jobs)
    && (forall i, j | i in jobs && j in jobs && i.spec != j.spec :: !HasPrefix(i.namespace, j.namespace))
    && (forall k, j | k in keys && j in jobs :: !HasPrefix(Capitalise(k.id.name), j.namespace))
    && (forall j, k {:trigger Unprefixed(j), Unprefixed(k)}
          | j in keys && k in keys && Unprefixed(j) == Unprefixed(k) :: j.id == k.id)
  }

  lemma {:induction false} PathHasJob(specs: Specs, jobs: seq<Job>, path: seq<Key>)
    requires M.IsPath(specs, Roots(jobs), path)
    ensures HasJob(jobs, path[|path| - 1].spec)
    decreases |path|
  {
    if |path| == 1 {
      var i := RootFrom(jobs, path[0]);
      assert jobs[i] in jobs;
    } else {
      var shorter := path[..|path| - 1];
      assert M.IsPath(specs, Roots(jobs), shorter);
      PathHasJob(specs, jobs, shorter);
      assert M.RefersTo(specs, path[|path| - 2], path[|path| - 1]);
    }
  }

  lemma OnePrefix(a: string, x: string, b: string, y: string)
    requires a + x == b + y
    ensures HasPrefix(a, b) || HasPrefix(b, a)
    ensures a == b ==> x == y
  {
    assert (a + x)[..|a|] == a && (b + y)[..|b|] == b;
    assert (a + x)[|a|..] == x && (b + y)[|b|..] == y;
    if |a| <= |b| {
      assert (b + y)[..|a|] == b[..|a|];
    } else {
      assert (a + x)[..|b|] == a[..|b|];
    }
  }

  lemma BeginsWith(a: string, x: string)
    ensures HasPrefix(a + x, a)
  {
  }

  lemma ExpectedApart(jobs: seq<Job>, keys: set<Key>, j: Key, k: Key)
    requires PlainlyNamed(jobs, keys) && j in keys && k in keys && HasJob(jobs, j.spec) && HasJob(jobs, k.spec)
    ensures Expected(jobs, j) == Expected(jobs, k) ==> j == k
    ensures Expected(jobs, j) != Unprefixed(k)
  {
    var i :| i in jobs && i.spec == j.spec;
    var h :| h in jobs && h.spec == k.spec;
    NamespaceIs(jobs, i);
    NamespaceIs(jobs, h);
    if Expected(jobs, j) == Expected(jobs, k) {
      OnePrefix(i.namespace, Capitalise(j.id.name), h.namespace, Capitalise(k.id.name));
      assert i.spec == h.spec;
      assert Unprefixed(j) == Unprefixed(k);
    }
    assert !HasPrefix(Capitalise(k.id.name), i.namespace);
    BeginsWith(i.namespace, Capitalise(j.id.name));
  }

  lemma PlainlyFree(jobs: seq<Job>, keys: set<Key>)
    requires PlainlyNamed(jobs, keys) && forall k | k in keys :: HasJob(jobs, k.spec)
    ensures PlainFree(ExpectedHomes(jobs, keys))
  {
    var first := ExpectedHomes(jobs, keys);
    forall k | k in keys ensures Unprefixed(k) !in first.Values {
      if Unprefixed(k) in first.Values {
        var j :| j in first && first[j] == Unprefixed(k);
        ExpectedApart(jobs, keys, j, k);
      }
    }
  }

  /** Then everything is foreseeable. */
  lemma PlainlyForeseeable(specs: Specs, jobs: seq<Job>, opt: Options, keys: set<Key>)
    requires M.ExactlyReachable(specs, Roots(jobs), keys) && PlainlyNamed(jobs, keys)
    ensures Foreseeable(jobs, keys, opt)
  {
    forall k | k in keys ensures HasJob(jobs, k.spec) {
      assert M.Reachable(specs, Roots(jobs), k);
      var path :| M.IsPath(specs, Roots(jobs), path) && path[|path| - 1] == k;
      PathHasJob(specs, jobs, path);
    }
    forall j, k | j in keys && k in keys && Expected(jobs, j) == Expected(jobs, k) ensures j == k {
      ExpectedApart(jobs, keys, j, k);
    }
    PlainlyFree(jobs, keys);
  }
}
