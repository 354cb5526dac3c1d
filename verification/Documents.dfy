/** What a merged document says, against the sources it was merged from. */
module Documents {
  import opened Wrappers
  import opened Text
  import opened JsonPointer
  import opened Nodes
  import opened Meaning
  import opened Fingerprint
  import opened Operations
  import opened Copying
  import M = Merger

  datatype Options = Options(dedupe: bool, securitySchemes: map<string, Node>)

  datatype Document = Document(operations: map<Slot, Node>, components: Doc)

  /** The sections the assembled document can carry. */
  const SECTIONS: set<string> :=
    {"schemas", "responses", "parameters", "examples", "requestBodies",
     "headers", "securitySchemes", "links", "callbacks", "pathItems"}

  // ---- what a document says, against its sources ----

  /** A component slot for each imported component. */
  type Homes = map<Key, CompId>

  /** Where each imported component was first published, and where it ended up. */
  datatype Names = Names(first: Homes, final: Homes)

  /** Two nodes, each in its own document, that unfold alike to every depth. */
  ghost predicate SameMeaning(a: Doc, m: Node, b: Doc, n: Node) {
    forall d: nat :: Unfold(a, m, d) == Unfold(b, n, d)
  }

  /** A published operation unfolds, to every depth, to what the source operation unfolds to
      in its own document. */
  ghost predicate OperationMeans(specs: Specs, components: Doc, operations: map<Slot, Node>, j: Job) {
    && j.spec in specs && j.slot in operations
    && SameMeaning(components, operations[j.slot], specs[j.spec], j.node)
  }

  ghost predicate ComponentMeans(specs: Specs, components: Doc, homes: Homes, k: Key) {
    && M.Known(specs, k) && k in homes && homes[k] in components
    && SameMeaning(components, components[homes[k]], specs[k.spec], M.NodeOf(specs, k))
  }

  /** Same meaning as the source, for every operation and every component. */
  ghost predicate MeansTheSame(specs: Specs, jobs: seq<Job>, components: Doc, operations: map<Slot, Node>,
                               homes: Homes)
  {
    && (forall j {:trigger OperationMeans(specs, components, operations, j)} | j in jobs ::
          OperationMeans(specs, components, operations, j))
    && (forall k {:trigger ComponentMeans(specs, components, homes, k)} | k in homes ::
          ComponentMeans(specs, components, homes, k))
  }

  function SchemeIds(schemes: map<string, Node>): set<CompId> {
    set n | n in schemes :: CompId("securitySchemes", n)
  }

  /** Every reference the merger wrote into the document resolves inside it. */
  ghost predicate NoDangling(doc: Document, schemes: map<string, Node>) {
    && (forall slot {:trigger doc.operations[slot]} | slot in doc.operations ::
          Resolves(doc.components, doc.operations[slot]))
    && (forall id {:trigger doc.components[id]} | id in doc.components && id !in SchemeIds(schemes) ::
          Resolves(doc.components, doc.components[id]))
  }

  predicate SectionsKnown(keys: set<Key>) {
    forall k | k in keys :: k.id.section in SECTIONS
  }

  /** None of the gateway's own schemes lies over an imported component. */
  predicate Unhidden(names: Names, schemes: map<string, Node>) {
    forall k | k in names.final :: names.final[k] !in SchemeIds(schemes)
  }

  /** A component's own node is the one its home holds: it had the least name of those that
      share the home. */
  predicate AtHome(names: Names, k: Key) {
    && k in names.first && k in names.final
    && forall j {:trigger names.final[j]} | j in names.final && j in names.first && names.final[j] == names.final[k] ::
         Leq(names.first[k].name, names.first[j].name)
  }

  predicate Has(names: Names, k: Key) {
    k in names.first && k in names.final
  }

  /** A source reference as it reads after the merge: a whole component is found at its home;
      a place inside one is sought where the component was first published. */
  predicate Reads(names: Names, spec: SpecId, q: string, r: string) {
    && ParseLocalRef(q).Some?
    && var ref := ParseLocalRef(q).value;
       var k := M.Key(spec, ref.id);
       && Has(names, k)
       && ParseLocalRef(r) == Some(Ref(if ref.tail == "" then names.final[k] else names.first[k], ref.tail))
  }

  /** A reference to a whole component, or to a place inside one that does not collapse. */
  predicate RefFollowed(names: Names, spec: SpecId, q: string) {
    && ParseLocalRef(q).Some?
    && var ref := ParseLocalRef(q).value;
       var k := M.Key(spec, ref.id);
       Has(names, k) && (ref.tail == "" || names.final[k] == names.first[k])
  }

  predicate NodeFollowed(names: Names, spec: SpecId, n: Node) {
    forall q {:trigger RefFollowed(names, spec, q)} | q in Refs(n) :: RefFollowed(names, spec, q)
  }

  /** Every reference that is kept is whole or names a component that does not collapse. */
  ghost predicate AllFollowed(specs: Specs, jobs: seq<Job>, names: Names) {
    && (forall j {:trigger j.node} | j in jobs :: NodeFollowed(names, j.spec, j.node))
    && (forall k {:trigger AtHome(names, k)} | AtHome(names, k) && M.Known(specs, k) ::
          NodeFollowed(names, k.spec, M.NodeOf(specs, k)))
  }

  // ---- what is read from an operation or a component ----

  /** The component whose own node a reader of `k` is shown. */
  predicate HeldBy(names: Names, k: Key, h: Key) {
    Has(names, k) && AtHome(names, h) && names.final[h] == names.final[k]
  }

  /** Reading `k` leads to what the node kept at its home refers to. */
  ghost predicate LeadsTo(specs: Specs, names: Names, k: Key, t: Key) {
    exists h :: HeldBy(names, k, h) && M.RefersTo(specs, h, t)
  }

  ghost predicate IsTrail(specs: Specs, names: Names, start: set<Key>, trail: seq<Key>) {
    && |trail| > 0 && trail[0] in start
    && forall i | 0 < i < |trail| :: LeadsTo(specs, names, trail[i - 1], trail[i])
  }

  ghost predicate ReadFrom(specs: Specs, names: Names, start: set<Key>, k: Key) {
    exists trail :: IsTrail(specs, names, start, trail) && trail[|trail| - 1] == k
  }

  /** The document carries the component, and the references of the node kept for it follow. */
  ghost predicate Fine(specs: Specs, names: Names, k: Key) {
    && k.id.section in SECTIONS
    && forall h {:trigger HeldBy(names, k, h)} | HeldBy(names, k, h) && M.Known(specs, h) ::
         NodeFollowed(names, h.spec, M.NodeOf(specs, h))
  }

  ghost predicate AllFine(specs: Specs, names: Names, start: set<Key>) {
    forall k {:trigger ReadFrom(specs, names, start, k)} | ReadFrom(specs, names, start, k) :: Fine(specs, names, k)
  }

  /** Nothing read is covered by a scheme of the gateway's. */
  ghost predicate NoneHidden(specs: Specs, names: Names, schemes: map<string, Node>, start: set<Key>) {
    forall k {:trigger ReadFrom(specs, names, start, k)} | ReadFrom(specs, names, start, k) && k in names.final ::
      names.final[k] !in SchemeIds(schemes)
  }

  /** Everything an operation reads is as in its sources. */
  ghost predicate OperationFine(specs: Specs, names: Names, j: Job) {
    NodeFollowed(names, j.spec, j.node) && AllFine(specs, names, M.Targets(j.spec, j.node))
  }

  /** No mapping of a source node has a key twice. */
  predicate KeysOnce(specs: Specs, jobs: seq<Job>, keys: set<Key>) {
    && (forall j | j in jobs :: KeysUnique(j.node))
    && (forall k | k in keys && M.Known(specs, k) :: KeysUnique(M.NodeOf(specs, k)))
  }

  /** A reference whose component has a section the document carries and which is whole, or
      whose first slot is still occupied. */
  predicate RefLands(names: Names, schemes: map<string, Node>, spec: SpecId, q: string) {
    && ParseLocalRef(q).Some?
    && var ref := ParseLocalRef(q).value;
       var k := M.Key(spec, ref.id);
       Has(names, k) && k.id.section in SECTIONS
       && (ref.tail == "" || names.first[k] in names.final.Values || names.first[k] in SchemeIds(schemes))
  }

  predicate NodeLands(names: Names, schemes: map<string, Node>, spec: SpecId, n: Node) {
    forall q {:trigger RefLands(names, schemes, spec, q)} | q in Refs(n) :: RefLands(names, schemes, spec, q)
  }

  /** A component whose own node the document shows. */
  predicate Shown(names: Names, schemes: map<string, Node>, k: Key) {
    AtHome(names, k) && k.id.section in SECTIONS && names.final[k] !in SchemeIds(schemes)
  }

  ghost predicate AllLand(specs: Specs, jobs: seq<Job>, names: Names, schemes: map<string, Node>) {
    && (forall j {:trigger j.node} | j in jobs :: NodeLands(names, schemes, j.spec, j.node))
    && (forall k {:trigger Shown(names, schemes, k)} | Shown(names, schemes, k) && M.Known(specs, k) ::
          NodeLands(names, schemes, k.spec, M.NodeOf(specs, k)))
  }

  /** No slot given up in a collapse is occupied again. */
  ghost predicate NoneRetaken(names: Names, schemes: map<string, Node>) {
    forall k {:trigger names.first[k]} | Has(names, k) && names.final[k] != names.first[k] ::
      names.first[k] !in names.final.Values && names.first[k] !in SchemeIds(schemes)
  }

  // ---- which components collapse, told from the sources ----

  function PrintOf(specs: Specs, k: Key): Print
    requires M.Known(specs, k)
  {
    HashComponent(specs[k.spec], k.id, [])
  }

  predicate SamePrint(specs: Specs, j: Key, k: Key) {
    M.Known(specs, j) && M.Known(specs, k) && PrintOf(specs, j) == PrintOf(specs, k)
  }

  /** Others have the section and name of `k`, and all of them have its structure. */
  predicate Collapses(specs: Specs, keys: set<Key>, k: Key) {
    && (exists j :: j in keys && j != k && j.id == k.id)
    && (forall j {:trigger SamePrint(specs, j, k)} | j in keys && j.id == k.id :: SamePrint(specs, j, k))
  }

  /** The un-namespaced slot of a component. */
  function Unprefixed(k: Key): CompId {
    CompId(k.id.section, Capitalise(k.id.name))
  }

  /** Un-namespaced slots nobody was given and no two names share. */
  predicate PlainFree(first: Homes) {
    forall j, k {:trigger Unprefixed(j), Unprefixed(k)} | j in first && k in first ::
      && Unprefixed(j) !in first.Values
      && (Unprefixed(j) == Unprefixed(k) ==> j.id == k.id)
  }

  predicate CollapsedRight(specs: Specs, names: Names, k: Key) {
    && Has(names, k)
    && (names.final[k] != names.first[k] <==> Collapses(specs, names.first.Keys, k))
    && (names.final[k] != names.first[k] ==> names.final[k] == Unprefixed(k))
  }

  // ---- the theorem ----

  /** Published names keep their section, are given once, and are the first candidates free. */
  ghost predicate FirstRight(jobs: seq<Job>, names: Names) {
    && names.first.Keys == names.final.Keys
    && (forall k {:trigger names.first[k]} | k in names.first ::
          && names.first[k].section == names.final[k].section == k.id.section
          && NamedBy(jobs, names.first.Values, k, names.first[k].name))
    && (forall j, k | j in names.first && k in names.first && names.first[j] == names.first[k] :: j == k)
  }

  /** Only components with one section, name and structure ever share a home. */
  predicate SharedRight(specs: Specs, names: Names) {
    forall j, k | j in names.final && k in names.final && names.final[j] == names.final[k] ::
      j.id == k.id && SamePrint(specs, j, k)
  }

  ghost predicate NamesWork(specs: Specs, jobs: seq<Job>, opt: Options, names: Names) {
    && FirstRight(jobs, names)
    && SharedRight(specs, names)
    && (!opt.dedupe ==> names.final == names.first)
    && (opt.dedupe && PlainFree(names.first) ==>
          forall k {:trigger CollapsedRight(specs, names, k)} | k in names.first :: CollapsedRight(specs, names, k))
  }

  /** The document holds the homes under the sections it lists, with the gateway's own
      schemes laid over them. */
  ghost predicate HoldsExactly(doc: Doc, homes: Homes, schemes: map<string, Node>) {
    && (forall id {:trigger id in doc} ::
          id in doc <==> id.section in SECTIONS && (id in homes.Values || id in SchemeIds(schemes)))
    && (forall n {:trigger schemes[n]} | n in schemes :: doc[CompId("securitySchemes", n)] == schemes[n])
  }

  /** No reference dangles exactly when every reference on show lands. */
  ghost predicate ResolvesExactly(specs: Specs, jobs: seq<Job>, doc: Document, names: Names,
                                  schemes: map<string, Node>)
  {
    NoDangling(doc, schemes) <==> AllLand(specs, jobs, names, schemes)
  }

  /** An operation, or a component, keeps its meaning when everything read from it is fine and
      nothing read is hidden, whatever becomes of the rest of the document. */
  ghost predicate MeaningSurvives(specs: Specs, jobs: seq<Job>, doc: Document, names: Names,
                                  schemes: map<string, Node>)
  {
    && (forall j {:trigger OperationMeans(specs, doc.components, doc.operations, j)}
          | j in jobs && NoneHidden(specs, names, schemes, M.Targets(j.spec, j.node)) ::
          OperationFine(specs, names, j) ==> OperationMeans(specs, doc.components, doc.operations, j))
    && (forall k {:trigger ComponentMeans(specs, doc.components, names.final, k)}
          | k in names.first && NoneHidden(specs, names, schemes, {k}) ::
          AllFine(specs, names, {k}) ==> ComponentMeans(specs, doc.components, names.final, k))
  }

  /** And, where no slot given up is occupied again, only then. */
  ghost predicate MeaningNeeds(specs: Specs, jobs: seq<Job>, doc: Document, names: Names, schemes: map<string, Node>) {
    NoneRetaken(names, schemes) && KeysOnce(specs, jobs, names.first.Keys) ==>
      && (forall j {:trigger OperationMeans(specs, doc.components, doc.operations, j)}
            | j in jobs && NoneHidden(specs, names, schemes, M.Targets(j.spec, j.node)) ::
            OperationMeans(specs, doc.components, doc.operations, j) ==> OperationFine(specs, names, j))
      && (forall k {:trigger ComponentMeans(specs, doc.components, names.final, k)}
            | k in names.first && NoneHidden(specs, names, schemes, {k}) ::
            ComponentMeans(specs, doc.components, names.final, k) ==> AllFine(specs, names, {k}))
  }

  /** What a successful merge publishes and what it means. */
  ghost predicate Published(specs: Specs, jobs: seq<Job>, opt: Options, doc: Document, names: Names) {
    // exactly the exposed operations, and exactly the components they reach
    && Mergeable(specs, jobs)
    && doc.operations.Keys == Slots(jobs)
    && M.ExactlyReachable(specs, Roots(jobs), names.first.Keys)
    && NamesWork(specs, jobs, opt, names)
    && HoldsExactly(doc.components, names.final, opt.securitySchemes)
    && ResolvesExactly(specs, jobs, doc, names, opt.securitySchemes)
    && MeaningSurvives(specs, jobs, doc, names, opt.securitySchemes)
    && MeaningNeeds(specs, jobs, doc, names, opt.securitySchemes)
  }

  // ---- what counts as the same structure ----

  /** The two components, and what they refer to, are the same up to names and the order of
      keys. */
  ghost predicate SameStructure(specs: Specs, j: Key, k: Key) {
    && M.Known(specs, j) && M.Known(specs, k)
    && exists pair :: PairsUp(specs[j.spec], specs[k.spec], pair) && j.id in pair && pair[j.id] == k.id
  }

  lemma SameStructurePrints(specs: Specs, j: Key, k: Key)
    requires SameStructure(specs, j, k)
    ensures SamePrint(specs, j, k)
  {
    var pair :| PairsUp(specs[j.spec], specs[k.spec], pair) && j.id in pair && pair[j.id] == k.id;
    HashIgnoresOrder(specs[j.spec], specs[k.spec], pair, j.id, [], []);
  }

  /** All others of its section and name are built as `k` is. */
  ghost predicate TwinsAlike(specs: Specs, keys: set<Key>, k: Key) {
    forall i {:trigger SameStructure(specs, i, k)} | i in keys && i != k && i.id == k.id :: SameStructure(specs, i, k)
  }

  lemma TwinsCollapse(specs: Specs, keys: set<Key>, j: Key, k: Key)
    requires TwinsAlike(specs, keys, k) && j in keys && k in keys && j != k && j.id == k.id && M.Known(specs, k)
    ensures Collapses(specs, keys, j) && Collapses(specs, keys, k)
  {
    forall i | i in keys && i.id == k.id ensures SamePrint(specs, i, k) {
      if i != k {
        SameStructurePrints(specs, i, k);
      }
    }
    forall i | i in keys && i.id == j.id ensures SamePrint(specs, i, j) {
      assert SamePrint(specs, i, k) && SamePrint(specs, j, k);
    }
  }

  /** Dedupe collapses them: if all of one section and name are the same up to names and key
      order, any two of them end up together, under the capitalised name without namespace. */
  lemma TwinsShare(specs: Specs, jobs: seq<Job>, opt: Options, names: Names, j: Key, k: Key)
    requires TwinsAlike(specs, names.first.Keys, k) && M.Known(specs, k) && opt.dedupe
    requires j in names.first && k in names.first && j != k && j.id == k.id
    ensures NamesWork(specs, jobs, opt, names) && PlainFree(names.first) ==>
            names.final[j] == names.final[k] == CompId(k.id.section, Capitalise(k.id.name))
  {
    TwinsCollapse(specs, names.first.Keys, j, k);
    if NamesWork(specs, jobs, opt, names) && PlainFree(names.first) {
      assert CollapsedRight(specs, names, j) && CollapsedRight(specs, names, k);
    }
  }

  // ---- the order of the jobs does not matter ----

  lemma NamesAnyOrder(a: seq<Job>, b: seq<Job>, names: Names)
    requires SameJobs(a, b) && FirstRight(a, names)
    ensures FirstRight(b, names)
  {
    forall k | k in names.first ensures NamedBy(b, names.first.Values, k, names.first[k].name) {
      assert NamedBy(a, names.first.Values, k, names.first[k].name);
      var j, n :| j in a && j.spec == k.spec && M.IsNth(names.first.Values, j.namespace, k.id, names.first[k].name, n);
      assert j in b;
    }
  }

  lemma LandAnyOrder(specs: Specs, a: seq<Job>, b: seq<Job>, names: Names, schemes: map<string, Node>)
    requires SameJobs(a, b)
    ensures AllLand(specs, a, names, schemes) <==> AllLand(specs, b, names, schemes)
  {
    assert forall j :: j in b <==> j in a;
  }

  lemma MeaningAnyOrder(specs: Specs, a: seq<Job>, b: seq<Job>, doc: Document, names: Names, schemes: map<string, Node>)
    requires SameJobs(a, b)
    ensures MeaningSurvives(specs, a, doc, names, schemes) ==> MeaningSurvives(specs, b, doc, names, schemes)
  {
    assert forall j :: j in b ==> j in a;
  }

  lemma NeedsAnyOrder(specs: Specs, a: seq<Job>, b: seq<Job>, doc: Document, names: Names, schemes: map<string, Node>)
    requires SameJobs(a, b)
    ensures MeaningNeeds(specs, a, doc, names, schemes) ==> MeaningNeeds(specs, b, doc, names, schemes)
  {
    assert forall j :: j in b <==> j in a;
  }

  lemma NamesWorkAnyOrder(specs: Specs, a: seq<Job>, b: seq<Job>, opt: Options, names: Names)
    requires SameJobs(a, b)
    ensures NamesWork(specs, a, opt, names) ==> NamesWork(specs, b, opt, names)
  {
    if FirstRight(a, names) {
      NamesAnyOrder(a, b, names);
    }
  }

  lemma PublishedAnyOrder(specs: Specs, a: seq<Job>, b: seq<Job>, opt: Options, doc: Document, names: Names)
    requires SameJobs(a, b)
    ensures Published(specs, a, opt, doc, names) ==> Published(specs, b, opt, doc, names)
  {
    if Published(specs, a, opt, doc, names) {
      SameMergeable(specs, a, b);
      SameRoots(a, b);
      NamesWorkAnyOrder(specs, a, b, opt, names);
      LandAnyOrder(specs, a, b, names, opt.securitySchemes);
      MeaningAnyOrder(specs, a, b, doc, names, opt.securitySchemes);
      NeedsAnyOrder(specs, a, b, doc, names, opt.securitySchemes);
    }
  }

  // ---- what follows for the document ----

  lemma MeaningShows(specs: Specs, jobs: seq<Job>, opt: Options, doc: Document, names: Names)
    requires Published(specs, jobs, opt, doc, names)
    requires MeansTheSame(specs, jobs, doc.components, doc.operations, names.final)
    ensures SectionsKnown(names.first.Keys)
  {
    forall k | k in names.first ensures k.id.section in SECTIONS {
      assert ComponentMeans(specs, doc.components, names.final, k);
      assert names.first[k].section == k.id.section;
    }
  }

  lemma LandedFollows(names: Names, schemes: map<string, Node>, spec: SpecId, n: Node)
    requires NoneRetaken(names, schemes) && NodeLands(names, schemes, spec, n)
    ensures NodeFollowed(names, spec, n)
  {
    forall q | q in Refs(n) ensures RefFollowed(names, spec, q) {
      assert RefLands(names, schemes, spec, q);
    }
  }

  /** Every reference of something reachable is local and to something imported. */
  lemma ReachedRefs(specs: Specs, jobs: seq<Job>, keys: set<Key>)
    requires Mergeable(specs, jobs) && M.ExactlyReachable(specs, Roots(jobs), keys)
    ensures forall j | j in jobs :: M.Parses(j.node) && M.Targets(j.spec, j.node) <= keys
    ensures forall k | k in keys :: M.Known(specs, k) && M.Parses(M.NodeOf(specs, k))
                                    && M.Targets(k.spec, M.NodeOf(specs, k)) <= keys
  {
    M.RootsReachable(specs, Roots(jobs));
    forall j | j in jobs ensures M.Parses(j.node) && M.Targets(j.spec, j.node) <= keys {
      var i :| 0 <= i < |jobs| && jobs[i] == j;
      RootsHave(jobs, i);
      assert Buildable(specs, jobs[i]);
      forall k | k in M.Targets(j.spec, j.node) ensures k in keys {
        assert M.Reachable(specs, Roots(jobs), k);
      }
    }
    forall k | k in keys
      ensures M.Known(specs, k) && M.Parses(M.NodeOf(specs, k)) && M.Targets(k.spec, M.NodeOf(specs, k)) <= keys
    {
      assert M.Reachable(specs, Roots(jobs), k);
      forall t | t in M.Targets(k.spec, M.NodeOf(specs, k)) ensures t in keys {
        M.StepReachable(specs, Roots(jobs), k, t);
      }
    }
  }

  lemma FollowedLands(names: Names, schemes: map<string, Node>, spec: SpecId, n: Node)
    requires NodeFollowed(names, spec, n) && SectionsKnown(names.first.Keys)
    ensures NodeLands(names, schemes, spec, n)
  {
    forall q | q in Refs(n) ensures RefLands(names, schemes, spec, q) {
      assert RefFollowed(names, spec, q);
      var k := M.Key(spec, ParseLocalRef(q).value.id);
      assert names.final[k] in names.final.Values;
    }
  }

  lemma AllFollowedLand(specs: Specs, jobs: seq<Job>, names: Names, schemes: map<string, Node>)
    requires AllFollowed(specs, jobs, names) && SectionsKnown(names.first.Keys)
    ensures AllLand(specs, jobs, names, schemes)
  {
    forall j | j in jobs ensures NodeLands(names, schemes, j.spec, j.node) {
      FollowedLands(names, schemes, j.spec, j.node);
    }
    forall k | Shown(names, schemes, k) && M.Known(specs, k)
      ensures NodeLands(names, schemes, k.spec, M.NodeOf(specs, k))
    {
      FollowedLands(names, schemes, k.spec, M.NodeOf(specs, k));
    }
  }

  lemma {:induction false} TrailInside(specs: Specs, jobs: seq<Job>, names: Names, start: set<Key>, trail: seq<Key>)
    requires Mergeable(specs, jobs) && M.ExactlyReachable(specs, Roots(jobs), names.first.Keys)
    requires start <= names.first.Keys && IsTrail(specs, names, start, trail)
    ensures trail[|trail| - 1] in names.first
    decreases |trail|
  {
    if |trail| > 1 {
      assert LeadsTo(specs, names, trail[|trail| - 2], trail[|trail| - 1]);
      var h :| HeldBy(names, trail[|trail| - 2], h) && M.RefersTo(specs, h, trail[|trail| - 1]);
      ReachedRefs(specs, jobs, names.first.Keys);
    }
  }

  lemma AllReadFine(specs: Specs, jobs: seq<Job>, names: Names, start: set<Key>)
    requires Mergeable(specs, jobs) && M.ExactlyReachable(specs, Roots(jobs), names.first.Keys)
    requires SectionsKnown(names.first.Keys) && AllFollowed(specs, jobs, names) && start <= names.first.Keys
    ensures AllFine(specs, names, start)
  {
    forall k | ReadFrom(specs, names, start, k) ensures Fine(specs, names, k) {
      var trail :| IsTrail(specs, names, start, trail) && trail[|trail| - 1] == k;
      TrailInside(specs, jobs, names, start, trail);
    }
  }

  lemma FineMeans(specs: Specs, jobs: seq<Job>, doc: Document, names: Names, schemes: map<string, Node>)
    requires Mergeable(specs, jobs) && M.ExactlyReachable(specs, Roots(jobs), names.first.Keys)
    requires MeaningSurvives(specs, jobs, doc, names, schemes) && names.first.Keys == names.final.Keys
    requires Unhidden(names, schemes) && SectionsKnown(names.first.Keys) && AllFollowed(specs, jobs, names)
    ensures MeansTheSame(specs, jobs, doc.components, doc.operations, names.final)
  {
    ReachedRefs(specs, jobs, names.first.Keys);
    forall j | j in jobs ensures OperationMeans(specs, doc.components, doc.operations, j) {
      AllReadFine(specs, jobs, names, M.Targets(j.spec, j.node));
    }
    forall k | k in names.final ensures ComponentMeans(specs, doc.components, names.final, k) {
      AllReadFine(specs, jobs, names, {k});
    }
  }

  /** The whole document means what its sources mean when everything in it is fine. */
  lemma AllMeans(specs: Specs, jobs: seq<Job>, opt: Options, doc: Document, names: Names)
    requires Published(specs, jobs, opt, doc, names) && Unhidden(names, opt.securitySchemes)
    requires SectionsKnown(names.first.Keys) && AllFollowed(specs, jobs, names)
    ensures MeansTheSame(specs, jobs, doc.components, doc.operations, names.final)
    ensures NoDangling(doc, opt.securitySchemes)
  {
    FineMeans(specs, jobs, doc, names, opt.securitySchemes);
    AllFollowedLand(specs, jobs, names, opt.securitySchemes);
  }

  /** When the document means what its sources mean and nothing in it dangles, in terms of the
      names handed out: exactly when every imported component has a section the document
      carries and every reference kept is whole or names a component that does not collapse. */
  lemma MeaningByNames(specs: Specs, jobs: seq<Job>, opt: Options, doc: Document, names: Names)
    requires Published(specs, jobs, opt, doc, names)
    requires Unhidden(names, opt.securitySchemes) && NoneRetaken(names, opt.securitySchemes)
    ensures MeansTheSame(specs, jobs, doc.components, doc.operations, names.final)
            && NoDangling(doc, opt.securitySchemes)
            <==> SectionsKnown(names.first.Keys) && AllFollowed(specs, jobs, names)
  {
    var schemes := opt.securitySchemes;
    if MeansTheSame(specs, jobs, doc.components, doc.operations, names.final) && NoDangling(doc, schemes) {
      MeaningShows(specs, jobs, opt, doc, names);
      forall j | j in jobs ensures NodeFollowed(names, j.spec, j.node) {
        LandedFollows(names, schemes, j.spec, j.node);
      }
      forall k | AtHome(names, k) && M.Known(specs, k) ensures NodeFollowed(names, k.spec, M.NodeOf(specs, k)) {
        assert Shown(names, schemes, k);
        LandedFollows(names, schemes, k.spec, M.NodeOf(specs, k));
      }
    }
    if SectionsKnown(names.first.Keys) && AllFollowed(specs, jobs, names) {
      AllMeans(specs, jobs, opt, doc, names);
    }
  }

  lemma StayedFollows(names: Names, spec: SpecId, n: Node)
    requires names.final == names.first && M.Parses(n) && M.Targets(spec, n) <= names.first.Keys
    ensures NodeFollowed(names, spec, n)
  {
    forall q | q in Refs(n) ensures RefFollowed(names, spec, q) {
      M.TargetOf(spec, n, q);
    }
  }

  ghost predicate AllShown(specs: Specs, jobs: seq<Job>, names: Names, schemes: map<string, Node>) {
    forall k {:trigger M.Reachable(specs, Roots(jobs), k)}
      | M.Reachable(specs, Roots(jobs), k) && k.id.section in SECTIONS ::
      Shown(names, schemes, k) && M.Known(specs, k)
  }

  /** With dedupe off every component with a listed section is on show. */
  lemma PlainAllShown(specs: Specs, jobs: seq<Job>, opt: Options, doc: Document, names: Names)
    requires Published(specs, jobs, opt, doc, names) && !opt.dedupe && Unhidden(names, opt.securitySchemes)
    ensures AllShown(specs, jobs, names, opt.securitySchemes)
  {
    forall k | M.Reachable(specs, Roots(jobs), k) && k.id.section in SECTIONS
      ensures Shown(names, opt.securitySchemes, k) && M.Known(specs, k)
    {
      assert k in names.first && SamePrint(specs, k, k);
      LeqTotal(names.first[k].name, names.first[k].name);
    }
  }

  lemma {:induction false} PathLands(specs: Specs, jobs: seq<Job>, names: Names, schemes: map<string, Node>,
                                     path: seq<Key>)
    requires AllLand(specs, jobs, names, schemes) && AllShown(specs, jobs, names, schemes)
    requires M.IsPath(specs, Roots(jobs), path)
    ensures path[|path| - 1].id.section in SECTIONS
    decreases |path|
  {
    var k := path[|path| - 1];
    if |path| == 1 {
      var i := RootFrom(jobs, k);
      LandedRoot(specs, jobs, names, schemes, i);
      LandedTarget(names, schemes, jobs[i].spec, jobs[i].node, k);
    } else {
      var shorter, prev := path[..|path| - 1], path[|path| - 2];
      assert M.IsPath(specs, Roots(jobs), shorter) && shorter[|shorter| - 1] == prev;
      PathLands(specs, jobs, names, schemes, shorter);
      assert M.Reachable(specs, Roots(jobs), prev);
      assert M.RefersTo(specs, path[|path| - 2], path[|path| - 1]);
      LandedTarget(names, schemes, prev.spec, M.NodeOf(specs, prev), k);
    }
  }

  /** If nothing dangles, every component on a path of references has a section the document
      carries: its predecessor was published and names it. */
  lemma PathPublished(specs: Specs, jobs: seq<Job>, opt: Options, doc: Document, names: Names, path: seq<Key>)
    requires Published(specs, jobs, opt, doc, names) && !opt.dedupe && Unhidden(names, opt.securitySchemes)
    requires NoDangling(doc, opt.securitySchemes) && M.IsPath(specs, Roots(jobs), path)
    ensures path[|path| - 1].id.section in SECTIONS
  {
    PlainAllShown(specs, jobs, opt, doc, names);
    PathLands(specs, jobs, names, opt.securitySchemes, path);
  }

  lemma LandedRoot(specs: Specs, jobs: seq<Job>, names: Names, schemes: map<string, Node>, i: nat)
    requires AllLand(specs, jobs, names, schemes) && i < |jobs|
    ensures NodeLands(names, schemes, jobs[i].spec, jobs[i].node)
  {
    assert jobs[i] in jobs;
  }

  lemma LandedTarget(names: Names, schemes: map<string, Node>, spec: SpecId, n: Node, k: Key)
    requires NodeLands(names, schemes, spec, n) && k in M.Targets(spec, n)
    ensures k.id.section in SECTIONS
  {
    var q :| q in Refs(n) && ParseLocalRef(q).Some? && k == M.Key(spec, ParseLocalRef(q).value.id);
    assert RefLands(names, schemes, spec, q);
  }

  lemma PlainFollows(specs: Specs, jobs: seq<Job>, names: Names)
    requires Mergeable(specs, jobs) && M.ExactlyReachable(specs, Roots(jobs), names.first.Keys)
             && names.final == names.first
    ensures AllFollowed(specs, jobs, names)
  {
    ReachedRefs(specs, jobs, names.first.Keys);
    forall j | j in jobs ensures NodeFollowed(names, j.spec, j.node) {
      StayedFollows(names, j.spec, j.node);
    }
    forall k | AtHome(names, k) && M.Known(specs, k) ensures NodeFollowed(names, k.spec, M.NodeOf(specs, k)) {
      StayedFollows(names, k.spec, M.NodeOf(specs, k));
    }
  }

  lemma PlainSections(specs: Specs, jobs: seq<Job>, opt: Options, doc: Document, names: Names)
    requires Published(specs, jobs, opt, doc, names) && !opt.dedupe && Unhidden(names, opt.securitySchemes)
    requires NoDangling(doc, opt.securitySchemes)
    ensures SectionsKnown(names.first.Keys)
  {
    forall k | k in names.first ensures k.id.section in SECTIONS {
      assert M.Reachable(specs, Roots(jobs), k);
      var path :| M.IsPath(specs, Roots(jobs), path) && path[|path| - 1] == k;
      PathPublished(specs, jobs, opt, doc, names, path);
    }
  }

  /** With dedupe off an unlisted section is the only thing that can go wrong: it is exactly
      what makes a reference dangle, and exactly what costs a component its meaning. */
  lemma PlainExactly(specs: Specs, jobs: seq<Job>, opt: Options, doc: Document, names: Names)
    requires Published(specs, jobs, opt, doc, names) && !opt.dedupe && Unhidden(names, opt.securitySchemes)
    ensures NoDangling(doc, opt.securitySchemes) <==> SectionsKnown(names.first.Keys)
    ensures MeansTheSame(specs, jobs, doc.components, doc.operations, names.final) <==> SectionsKnown(names.first.Keys)
  {
    if NoDangling(doc, opt.securitySchemes) {
      PlainSections(specs, jobs, opt, doc, names);
    }
    if MeansTheSame(specs, jobs, doc.components, doc.operations, names.final) {
      MeaningShows(specs, jobs, opt, doc, names);
    }
    PlainFollows(specs, jobs, names);
    if SectionsKnown(names.first.Keys) {
      AllMeans(specs, jobs, opt, doc, names);
    }
  }

  /** A gateway scheme hides the component it lies over: the document shows the gateway's node,
      and the component keeps its meaning exactly when that node unfolds to the same. */
  lemma HiddenShowsScheme(specs: Specs, doc: Doc, names: Names, schemes: map<string, Node>, k: Key)
    requires HoldsExactly(doc, names.final, schemes) && k in names.final && names.final[k] in SchemeIds(schemes)
    ensures names.final[k] in doc && doc[names.final[k]] == schemes[names.final[k].name]
    ensures ComponentMeans(specs, doc, names.final, k) <==>
            M.Known(specs, k) && SameMeaning(doc, schemes[names.final[k].name], specs[k.spec], M.NodeOf(specs, k))
  {
    SchemeShown(doc, names.final, schemes, names.final[k]);
  }

  lemma SchemeShown(doc: Doc, homes: Homes, schemes: map<string, Node>, id: CompId)
    requires HoldsExactly(doc, homes, schemes) && id in SchemeIds(schemes)
    ensures id in doc && id.name in schemes && doc[id] == schemes[id.name]
  {
    var n :| n in schemes && id == CompId("securitySchemes", n);
    assert schemes[n] == doc[id];
  }
}
