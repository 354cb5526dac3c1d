/** What the operations and components of an assembled document unfold to, against the sources
    they were copied from. */
module Reading {
  import opened Text
  import opened JsonPointer
  import opened Nodes
  import opened Meaning
  import opened Operations
  import opened Assembly
  import opened Copying
  import opened Documents
  import M = Merger
  import D = Dedupe
  import P = Publishing

  /** The components of the document, once the pass over the state is done. */
  ghost predicate Assembles(specs: Specs, s: M.State, p: Pass, schemes: map<string, Node>, all: Doc) {
    Settled(specs, s, p) && all == Assembled(D.Aliased(p.after, p.aliases), schemes)
  }

  /** The copy of a source node, redirected by the pass. */
  function CopyOf(s: M.State, p: Pass, spec: SpecId, n: Node): Node
    requires M.RefsImported(s.imported, spec, n)
  {
    Rewrite(M.Publish(s.imported, spec, n), p.aliases)
  }

  ghost predicate CopyMeans(specs: Specs, s: M.State, p: Pass, all: Doc, spec: SpecId, n: Node) {
    M.RefsImported(s.imported, spec, n) && spec in specs && SameMeaning(all, CopyOf(s, p, spec, n), specs[spec], n)
  }

  // ---- the copy a reader is shown ----

  /** Components with one slot group unfold alike where they come from. */
  lemma SameSource(specs: Specs, s: M.State, h: Key, k: Key)
    requires P.Drained(specs, s) && D.Filled(s.comps) && h in s.imported && k in s.imported
    requires h.id == k.id && SamePrint(specs, h, k)
    ensures SameMeaning(specs[h.spec], M.NodeOf(specs, h), specs[k.spec], M.NodeOf(specs, k))
  {
    GroupOfKey(specs, s, h);
    GroupOfKey(specs, s, k);
    ImportedKey(specs, s, h);
    ImportedKey(specs, s, k);
    var x, slot := M.SlotOf(s.imported, h), M.SlotOf(s.imported, k);
    D.StandInAlike(s.comps, x, slot);
    forall d: nat ensures Unfold(specs[h.spec], M.NodeOf(specs, h), d) == Unfold(specs[k.spec], M.NodeOf(specs, k), d) {
      P.PublishKeepsMeaning(specs, s, h.spec, M.NodeOf(specs, h), d);
      P.PublishKeepsMeaning(specs, s, k.spec, M.NodeOf(specs, k), d);
    }
  }

  /** At an uncovered home of a listed section the document holds the copy of the component
      kept there. */
  lemma KeptCopy(specs: Specs, s: M.State, p: Pass, schemes: map<string, Node>, all: Doc, k: Key) returns (h: Key)
    requires Assembles(specs, s, p, schemes, all) && k in s.imported
    requires k.id.section in SECTIONS && NamesOf(s, p.moved).final[k] !in SchemeIds(schemes)
    ensures HeldBy(NamesOf(s, p.moved), k, h) && h in s.imported && h.id == k.id && SamePrint(specs, h, k)
    ensures M.SlotOf(s.imported, h) == D.StandIn(p.moved, p.like, M.SlotOf(s.imported, k))
    ensures M.RefsImported(s.imported, h.spec, M.NodeOf(specs, h))
    ensures NamesOf(s, p.moved).final[k] in all
    ensures all[NamesOf(s, p.moved).final[k]] == CopyOf(s, p, h.spec, M.NodeOf(specs, h))
  {
    h := Holder(specs, s, p, k);
    HoldsOwn(specs, s, p, h);
    ImportedKey(specs, s, h);
  }

  /** Of the components that share a home it is the one whose published name comes first. */
  lemma KeptFirst(specs: Specs, s: M.State, p: Pass, schemes: map<string, Node>, all: Doc, k: Key) returns (h: Key)
    requires Assembles(specs, s, p, schemes, all) && k in s.imported
    requires k.id.section in SECTIONS && NamesOf(s, p.moved).final[k] !in SchemeIds(schemes)
    ensures h in s.imported && M.Known(specs, h) && M.RefsImported(s.imported, h.spec, M.NodeOf(specs, h))
    ensures var names := NamesOf(s, p.moved);
      && names.final[h] == names.final[k] && names.final[k] in all
      && all[names.final[k]] == CopyOf(s, p, h.spec, M.NodeOf(specs, h))
      && forall j | j in s.imported && names.final[j] == names.final[k] ::
           Precedes(names.first[h].name, names.first[j].name)
  {
    h := KeptCopy(specs, s, p, schemes, all, k);
    var names := NamesOf(s, p.moved);
    forall j | j in s.imported && names.final[j] == names.final[k]
      ensures Precedes(names.first[h].name, names.first[j].name)
    {
      LeqIsPrecedes(names.first[h].name, names.first[j].name);
    }
  }

  lemma OnlyHolder(specs: Specs, s: M.State, p: Pass, k: Key, h: Key)
    requires Settled(specs, s, p) && HeldBy(NamesOf(s, p.moved), k, h)
    ensures NamesOf(s, p.moved).final[k] in p.after && p.after[NamesOf(s, p.moved).final[k]].key == h
  {
    HoldsOwn(specs, s, p, h);
  }

  lemma SameHolder(specs: Specs, s: M.State, p: Pass, k: Key, h: Key, g: Key)
    requires Settled(specs, s, p) && HeldBy(NamesOf(s, p.moved), k, h) && HeldBy(NamesOf(s, p.moved), k, g)
    ensures g == h
  {
    OnlyHolder(specs, s, p, k, h);
    OnlyHolder(specs, s, p, k, g);
  }

  // ---- a set of components closed under reading ----

  ghost predicate SealedOne(specs: Specs, names: Names, schemes: map<string, Node>, keys: set<Key>, k: Key) {
    && Has(names, k) && names.final[k] !in SchemeIds(schemes) && Fine(specs, names, k)
    && forall t {:trigger LeadsTo(specs, names, k, t)} | LeadsTo(specs, names, k, t) :: t in keys
  }

  /** Components that are fine, not hidden, and lead only to one another. */
  ghost predicate Sealed(specs: Specs, names: Names, schemes: map<string, Node>, keys: set<Key>) {
    forall k {:trigger SealedOne(specs, names, schemes, keys, k)} | k in keys ::
      SealedOne(specs, names, schemes, keys, k)
  }

  /** Where the pass leaves the slots of some components. */
  function MovedIn(s: M.State, p: Pass, keys: set<Key>): map<CompId, CompId> {
    map slot | slot in s.comps && s.comps[slot].key in keys :: D.Home(p.moved, slot)
  }

  lemma CopyFollows(specs: Specs, s: M.State, p: Pass, keys: set<Key>, spec: SpecId, n: Node)
    requires Settled(specs, s, p) && M.RefsImported(s.imported, spec, n)
    requires NodeFollowed(NamesOf(s, p.moved), spec, n) && M.Targets(spec, n) <= keys
    ensures RefsFollow(M.Publish(s.imported, spec, n), p.aliases, MovedIn(s, p, keys))
  {
    forall r | r in Refs(M.Publish(s.imported, spec, n)) ensures RefFollows(r, p.aliases, MovedIn(s, p, keys)) {
      var q := P.PublishedRefs(specs, s, spec, n, r);
      var k := M.Key(spec, ParseLocalRef(q).value.id);
      assert RefFollowed(NamesOf(s, p.moved), spec, q);
      assert k in M.Targets(spec, n);
      ImportedKey(specs, s, k);
      D.SentBy(s.comps, D.GroupsOf(s.comps), p.after, p.aliases, p.moved, p.like, r);
    }
  }

  lemma SealedCarriesOne(specs: Specs, s: M.State, p: Pass, schemes: map<string, Node>, all: Doc, keys: set<Key>,
                         slot: CompId)
    requires Assembles(specs, s, p, schemes, all) && Sealed(specs, NamesOf(s, p.moved), schemes, keys)
    requires slot in MovedIn(s, p, keys)
    ensures CarriesOne(D.DocOf(s.comps), all, D.Everywhere(s.comps, p.aliases), MovedIn(s, p, keys),
                       D.StandIns(s.comps, p.moved, p.like), slot)
  {
    P.SlotWellFormed(specs, s, slot);
    var names, k := NamesOf(s, p.moved), s.comps[slot].key;
    assert SealedOne(specs, names, schemes, keys, k);
    var h := KeptCopy(specs, s, p, schemes, all, k);
    ImportedKey(specs, s, h);
    GroupOfKey(specs, s, h);
    GroupOfKey(specs, s, k);
    D.StandInAlike(s.comps, M.SlotOf(s.imported, h), slot);
    forall t | t in M.Targets(h.spec, M.NodeOf(specs, h)) ensures t in keys {
      assert M.RefersTo(specs, h, t);
      assert LeadsTo(specs, names, k, t);
    }
    CopyFollows(specs, s, p, keys, h.spec, M.NodeOf(specs, h));
  }

  /** A node that leads into such a set, its own references following, unfolds as its source. */
  lemma SealedCopy(specs: Specs, s: M.State, p: Pass, schemes: map<string, Node>, all: Doc, keys: set<Key>,
                   spec: SpecId, n: Node)
    requires Assembles(specs, s, p, schemes, all) && Sealed(specs, NamesOf(s, p.moved), schemes, keys)
    requires spec in specs && M.RefsImported(s.imported, spec, n)
    requires NodeFollowed(NamesOf(s, p.moved), spec, n) && M.Targets(spec, n) <= keys
    ensures CopyMeans(specs, s, p, all, spec, n)
  {
    forall slot | slot in MovedIn(s, p, keys)
      ensures CarriesOne(D.DocOf(s.comps), all, D.Everywhere(s.comps, p.aliases), MovedIn(s, p, keys),
                         D.StandIns(s.comps, p.moved, p.like), slot)
    {
      SealedCarriesOne(specs, s, p, schemes, all, keys, slot);
    }
    CopyFollows(specs, s, p, keys, spec, n);
    forall d: nat ensures Unfold(all, CopyOf(s, p, spec, n), d) == Unfold(specs[spec], n, d) {
      MovedUnfoldsAlike(D.DocOf(s.comps), all, D.Everywhere(s.comps, p.aliases), MovedIn(s, p, keys),
                        D.StandIns(s.comps, p.moved, p.like), M.Publish(s.imported, spec, n), p.aliases, d);
      P.PublishKeepsMeaning(specs, s, spec, n, d);
    }
  }

  lemma SealedComponent(specs: Specs, s: M.State, p: Pass, schemes: map<string, Node>, all: Doc, keys: set<Key>, k: Key)
    requires Assembles(specs, s, p, schemes, all) && Sealed(specs, NamesOf(s, p.moved), schemes, keys) && k in keys
    ensures ComponentMeans(specs, all, NamesOf(s, p.moved).final, k)
  {
    var names := NamesOf(s, p.moved);
    assert SealedOne(specs, names, schemes, keys, k);
    var h := KeptCopy(specs, s, p, schemes, all, k);
    forall t | t in M.Targets(h.spec, M.NodeOf(specs, h)) ensures t in keys {
      assert M.RefersTo(specs, h, t);
      assert LeadsTo(specs, names, k, t);
    }
    SealedCopy(specs, s, p, schemes, all, keys, h.spec, M.NodeOf(specs, h));
    SameSource(specs, s, h, k);
  }

  // ---- what is read is such a set ----

  lemma TrailShortens(specs: Specs, names: Names, start: set<Key>, trail: seq<Key>)
    requires IsTrail(specs, names, start, trail) && |trail| > 1
    ensures IsTrail(specs, names, start, trail[..|trail| - 1])
    ensures ReadFrom(specs, names, start, trail[|trail| - 2])
    ensures LeadsTo(specs, names, trail[|trail| - 2], trail[|trail| - 1])
  {
    var shorter := trail[..|trail| - 1];
    assert IsTrail(specs, names, start, shorter) && shorter[|shorter| - 1] == trail[|trail| - 2];
  }

  lemma ReadStart(specs: Specs, names: Names, start: set<Key>, k: Key)
    requires k in start
    ensures ReadFrom(specs, names, start, k)
  {
    assert IsTrail(specs, names, start, [k]);
  }

  lemma ReadOn(specs: Specs, names: Names, start: set<Key>, k: Key, t: Key)
    requires ReadFrom(specs, names, start, k) && LeadsTo(specs, names, k, t)
    ensures ReadFrom(specs, names, start, t)
  {
    var trail :| IsTrail(specs, names, start, trail) && trail[|trail| - 1] == k;
    var longer := trail + [t];
    assert IsTrail(specs, names, start, longer);
    assert longer[|longer| - 1] == t;
  }

  lemma LeadsInside(specs: Specs, s: M.State, p: Pass, k: Key, t: Key)
    requires Settled(specs, s, p) && LeadsTo(specs, NamesOf(s, p.moved), k, t)
    ensures t in s.imported
  {
    var h :| HeldBy(NamesOf(s, p.moved), k, h) && M.RefersTo(specs, h, t);
    ImportedKey(specs, s, h);
    TargetImported(s.imported, h.spec, M.NodeOf(specs, h), t);
  }

  lemma TargetImported(imported: map<Key, string>, spec: SpecId, n: Node, t: Key)
    requires M.RefsImported(imported, spec, n) && t in M.Targets(spec, n)
    ensures t in imported
  {
    var q :| q in Refs(n) && ParseLocalRef(q).Some? && t == M.Key(spec, ParseLocalRef(q).value.id);
    M.TargetOf(spec, n, q);
  }

  /** All that is read from `start`. */
  ghost function AllRead(specs: Specs, s: M.State, p: Pass, start: set<Key>): set<Key> {
    set k | k in s.imported && ReadFrom(specs, NamesOf(s, p.moved), start, k)
  }

  lemma ReadIsSealed(specs: Specs, s: M.State, p: Pass, schemes: map<string, Node>, start: set<Key>)
    requires Settled(specs, s, p) && start <= s.imported.Keys
    requires AllFine(specs, NamesOf(s, p.moved), start) && NoneHidden(specs, NamesOf(s, p.moved), schemes, start)
    ensures start <= AllRead(specs, s, p, start)
    ensures Sealed(specs, NamesOf(s, p.moved), schemes, AllRead(specs, s, p, start))
  {
    var names, keys := NamesOf(s, p.moved), AllRead(specs, s, p, start);
    forall k | k in start ensures k in keys {
      ReadStart(specs, names, start, k);
    }
    forall k | k in keys ensures SealedOne(specs, names, schemes, keys, k) {
      forall t | LeadsTo(specs, names, k, t) ensures t in keys {
        ReadOn(specs, names, start, k, t);
        LeadsInside(specs, s, p, k, t);
      }
    }
  }

  lemma OperationSurvives(specs: Specs, s: M.State, p: Pass, schemes: map<string, Node>, all: Doc, spec: SpecId,
                          n: Node)
    requires Assembles(specs, s, p, schemes, all) && spec in specs && M.RefsImported(s.imported, spec, n)
    requires NodeFollowed(NamesOf(s, p.moved), spec, n)
    requires AllFine(specs, NamesOf(s, p.moved), M.Targets(spec, n))
    requires NoneHidden(specs, NamesOf(s, p.moved), schemes, M.Targets(spec, n))
    ensures CopyMeans(specs, s, p, all, spec, n)
  {
    var start := M.Targets(spec, n);
    forall t | t in start ensures t in s.imported {
      TargetImported(s.imported, spec, n, t);
    }
    ReadIsSealed(specs, s, p, schemes, start);
    SealedCopy(specs, s, p, schemes, all, AllRead(specs, s, p, start), spec, n);
  }

  lemma ComponentSurvives(specs: Specs, s: M.State, p: Pass, schemes: map<string, Node>, all: Doc, k: Key)
    requires Assembles(specs, s, p, schemes, all) && k in s.imported
    requires AllFine(specs, NamesOf(s, p.moved), {k}) && NoneHidden(specs, NamesOf(s, p.moved), schemes, {k})
    ensures ComponentMeans(specs, all, NamesOf(s, p.moved).final, k)
  {
    ReadIsSealed(specs, s, p, schemes, {k});
    SealedComponent(specs, s, p, schemes, all, AllRead(specs, s, p, {k}), k);
  }

  /** Every operation and component survives that reads only what is fine. */
  lemma PassMeans(specs: Specs, jobs: seq<Job>, s: M.State, pathOps: map<Slot, Claim>, p: Pass,
                  schemes: map<string, Node>)
    requires Imported(specs, jobs, s, pathOps) && Settled(specs, s, p)
    ensures MeaningSurvives(specs, jobs, DocumentOf(pathOps, p, schemes), NamesOf(s, p.moved), schemes)
  {
    var doc, names := DocumentOf(pathOps, p, schemes), NamesOf(s, p.moved);
    forall j | j in jobs && NoneHidden(specs, names, schemes, M.Targets(j.spec, j.node))
      && OperationFine(specs, names, j)
      ensures OperationMeans(specs, doc.components, doc.operations, j)
    {
      assert ClaimRight(s.imported, pathOps, j) && Buildable(specs, j);
      OperationSurvives(specs, s, p, schemes, doc.components, j.spec, j.node);
    }
    forall k | k in names.first && NoneHidden(specs, names, schemes, {k}) && AllFine(specs, names, {k})
      ensures ComponentMeans(specs, doc.components, names.final, k)
    {
      ComponentSurvives(specs, s, p, schemes, doc.components, k);
    }
  }

  // ---- and nothing else survives ----

  /** Where a copied reference leads, when the copy unfolds as its source does. */
  lemma CopyLeads(specs: Specs, s: M.State, p: Pass, all: Doc, spec: SpecId, n: Node, q: string, depth: nat)
    returns (at: CompId)
    requires Settled(specs, s, p) && CopyMeans(specs, s, p, all, spec, n) && KeysUnique(n) && q in Refs(n)
    ensures ParseLocalRef(q).Some?
    ensures var ref := ParseLocalRef(q).value; var k, names := M.Key(spec, ref.id), NamesOf(s, p.moved);
      && Has(names, k) && M.Known(specs, k) && at == (if ref.tail == "" then names.final[k] else names.first[k])
      && at in all && Unfold(all, all[at], depth) == Unfold(specs[spec], M.NodeOf(specs, k), depth)
  {
    PublishPrints(specs, s, spec, n, q);
    ReadsRight(specs, s, p, spec, n, q);
    var copy, renames := M.Publish(s.imported, spec, n), M.PublishMap(s.imported, spec, Refs(n));
    var r, k := Renamed(renames, q), M.Key(spec, ParseLocalRef(q).value.id);
    at := ParseLocalRef(Renamed(p.aliases, r)).value.id;
    ImportedKey(specs, s, k);
    RewriteHits(n, renames, q);
    RewriteUnique(n, renames);
    P.PublishKeepsMeaning(specs, s, spec, n, depth + 1);
    P.PublishKeepsMeaning(specs, s, spec, M.NodeOf(specs, k), depth);
    AlikeRefs(D.DocOf(s.comps), all, copy, p.aliases, r, depth + 1);
  }

  lemma RefNeeds(specs: Specs, s: M.State, p: Pass, schemes: map<string, Node>, all: Doc, spec: SpecId, n: Node,
                 q: string)
    requires Assembles(specs, s, p, schemes, all) && CopyMeans(specs, s, p, all, spec, n)
    requires KeysUnique(n) && q in Refs(n) && NoneRetaken(NamesOf(s, p.moved), schemes)
    ensures RefFollowed(NamesOf(s, p.moved), spec, q)
    ensures ComponentMeans(specs, all, NamesOf(s, p.moved).final, M.Key(spec, ParseLocalRef(q).value.id))
  {
    AssembledHolds(specs, s, p, schemes);
    var names := NamesOf(s, p.moved);
    var at := CopyLeads(specs, s, p, all, spec, n, q, 0);
    var k := M.Key(spec, ParseLocalRef(q).value.id);
    assert names.final[k] == names.first[k] || at != names.first[k];
    forall d: nat ensures Unfold(all, all[at], d) == Unfold(specs[spec], M.NodeOf(specs, k), d) {
      var again := CopyLeads(specs, s, p, all, spec, n, q, d);
    }
  }

  lemma NodeNeeds(specs: Specs, s: M.State, p: Pass, schemes: map<string, Node>, all: Doc, spec: SpecId, n: Node)
    requires Assembles(specs, s, p, schemes, all) && CopyMeans(specs, s, p, all, spec, n)
    requires KeysUnique(n) && NoneRetaken(NamesOf(s, p.moved), schemes)
    ensures NodeFollowed(NamesOf(s, p.moved), spec, n)
    ensures forall t | t in M.Targets(spec, n) :: ComponentMeans(specs, all, NamesOf(s, p.moved).final, t)
  {
    forall q | q in Refs(n) ensures RefFollowed(NamesOf(s, p.moved), spec, q) {
      RefNeeds(specs, s, p, schemes, all, spec, n, q);
    }
    forall t | t in M.Targets(spec, n) ensures ComponentMeans(specs, all, NamesOf(s, p.moved).final, t) {
      var q :| q in Refs(n) && ParseLocalRef(q).Some? && t == M.Key(spec, ParseLocalRef(q).value.id);
      RefNeeds(specs, s, p, schemes, all, spec, n, q);
    }
  }

  /** A component that kept its meaning is carried by the document, and the node kept for it
      did too. */
  lemma HolderMeans(specs: Specs, s: M.State, p: Pass, schemes: map<string, Node>, all: Doc, k: Key, h: Key)
    requires Assembles(specs, s, p, schemes, all) && ComponentMeans(specs, all, NamesOf(s, p.moved).final, k)
    requires NamesOf(s, p.moved).final[k] !in SchemeIds(schemes) && HeldBy(NamesOf(s, p.moved), k, h)
    ensures k.id.section in SECTIONS && h in s.imported && M.Known(specs, h)
    ensures CopyMeans(specs, s, p, all, h.spec, M.NodeOf(specs, h))
  {
    SectionsStay(specs, s, p);
    assert NamesOf(s, p.moved).first[k].section == k.id.section;
    var g := KeptCopy(specs, s, p, schemes, all, k);
    SameHolder(specs, s, p, k, h, g);
    ImportedKey(specs, s, h);
    SameSource(specs, s, h, k);
  }

  lemma ComponentNeeds(specs: Specs, s: M.State, p: Pass, schemes: map<string, Node>, all: Doc, k: Key, h: Key)
    requires Assembles(specs, s, p, schemes, all) && ComponentMeans(specs, all, NamesOf(s, p.moved).final, k)
    requires NamesOf(s, p.moved).final[k] !in SchemeIds(schemes) && HeldBy(NamesOf(s, p.moved), k, h)
    requires NoneRetaken(NamesOf(s, p.moved), schemes) && M.Known(specs, h) && KeysUnique(M.NodeOf(specs, h))
    ensures k.id.section in SECTIONS && NodeFollowed(NamesOf(s, p.moved), h.spec, M.NodeOf(specs, h))
    ensures forall t | M.RefersTo(specs, h, t) :: ComponentMeans(specs, all, NamesOf(s, p.moved).final, t)
  {
    HolderMeans(specs, s, p, schemes, all, k, h);
    NodeNeeds(specs, s, p, schemes, all, h.spec, M.NodeOf(specs, h));
  }

  lemma LedMeans(specs: Specs, jobs: seq<Job>, s: M.State, p: Pass, schemes: map<string, Node>, all: Doc,
                 k: Key, t: Key)
    requires Assembles(specs, s, p, schemes, all) && ComponentMeans(specs, all, NamesOf(s, p.moved).final, k)
    requires NoneRetaken(NamesOf(s, p.moved), schemes) && KeysOnce(specs, jobs, s.imported.Keys)
    requires NamesOf(s, p.moved).final[k] !in SchemeIds(schemes) && LeadsTo(specs, NamesOf(s, p.moved), k, t)
    ensures ComponentMeans(specs, all, NamesOf(s, p.moved).final, t)
  {
    var h :| HeldBy(NamesOf(s, p.moved), k, h) && M.RefersTo(specs, h, t);
    ComponentNeeds(specs, s, p, schemes, all, k, h);
  }

  /** What a component that kept its meaning leads to kept it as well. */
  lemma {:induction false} TrailMeans(specs: Specs, jobs: seq<Job>, s: M.State, p: Pass, schemes: map<string, Node>,
                                      all: Doc, start: set<Key>, trail: seq<Key>)
    requires Assembles(specs, s, p, schemes, all) && IsTrail(specs, NamesOf(s, p.moved), start, trail)
    requires NoneRetaken(NamesOf(s, p.moved), schemes) && KeysOnce(specs, jobs, s.imported.Keys)
    requires NoneHidden(specs, NamesOf(s, p.moved), schemes, start)
    requires forall k | k in start :: ComponentMeans(specs, all, NamesOf(s, p.moved).final, k)
    ensures ComponentMeans(specs, all, NamesOf(s, p.moved).final, trail[|trail| - 1])
    decreases |trail|
  {
    if |trail| > 1 {
      TrailShortens(specs, NamesOf(s, p.moved), start, trail);
      TrailMeans(specs, jobs, s, p, schemes, all, start, trail[..|trail| - 1]);
      LedMeans(specs, jobs, s, p, schemes, all, trail[|trail| - 2], trail[|trail| - 1]);
    }
  }

  lemma MeansFine(specs: Specs, jobs: seq<Job>, s: M.State, p: Pass, schemes: map<string, Node>, all: Doc, k: Key)
    requires Assembles(specs, s, p, schemes, all) && ComponentMeans(specs, all, NamesOf(s, p.moved).final, k)
    requires NoneRetaken(NamesOf(s, p.moved), schemes) && KeysOnce(specs, jobs, s.imported.Keys)
    requires NamesOf(s, p.moved).final[k] !in SchemeIds(schemes)
    ensures Fine(specs, NamesOf(s, p.moved), k)
  {
    var names := NamesOf(s, p.moved);
    forall h | HeldBy(names, k, h) && M.Known(specs, h) ensures NodeFollowed(names, h.spec, M.NodeOf(specs, h)) {
      ComponentNeeds(specs, s, p, schemes, all, k, h);
    }
    var g := Holder(specs, s, p, k);
    HoldsOwn(specs, s, p, g);
    HolderMeans(specs, s, p, schemes, all, k, g);
  }

  lemma ReadNeeds(specs: Specs, jobs: seq<Job>, s: M.State, p: Pass, schemes: map<string, Node>, all: Doc,
                  start: set<Key>)
    requires Assembles(specs, s, p, schemes, all)
    requires NoneRetaken(NamesOf(s, p.moved), schemes) && KeysOnce(specs, jobs, s.imported.Keys)
    requires NoneHidden(specs, NamesOf(s, p.moved), schemes, start)
    requires forall k | k in start :: ComponentMeans(specs, all, NamesOf(s, p.moved).final, k)
    ensures AllFine(specs, NamesOf(s, p.moved), start)
  {
    var names := NamesOf(s, p.moved);
    forall k | ReadFrom(specs, names, start, k) ensures Fine(specs, names, k) {
      var trail :| IsTrail(specs, names, start, trail) && trail[|trail| - 1] == k;
      TrailMeans(specs, jobs, s, p, schemes, all, start, trail);
      MeansFine(specs, jobs, s, p, schemes, all, k);
    }
  }

  lemma OperationNeeds(specs: Specs, jobs: seq<Job>, s: M.State, p: Pass, schemes: map<string, Node>, all: Doc,
                       spec: SpecId, n: Node)
    requires Assembles(specs, s, p, schemes, all) && CopyMeans(specs, s, p, all, spec, n) && KeysUnique(n)
    requires NoneRetaken(NamesOf(s, p.moved), schemes) && KeysOnce(specs, jobs, s.imported.Keys)
    requires NoneHidden(specs, NamesOf(s, p.moved), schemes, M.Targets(spec, n))
    ensures NodeFollowed(NamesOf(s, p.moved), spec, n) && AllFine(specs, NamesOf(s, p.moved), M.Targets(spec, n))
  {
    NodeNeeds(specs, s, p, schemes, all, spec, n);
    ReadNeeds(specs, jobs, s, p, schemes, all, M.Targets(spec, n));
  }

  lemma ComponentsNeed(specs: Specs, jobs: seq<Job>, s: M.State, p: Pass, schemes: map<string, Node>, all: Doc, k: Key)
    requires Assembles(specs, s, p, schemes, all) && ComponentMeans(specs, all, NamesOf(s, p.moved).final, k)
    requires NoneRetaken(NamesOf(s, p.moved), schemes) && KeysOnce(specs, jobs, s.imported.Keys)
    requires NoneHidden(specs, NamesOf(s, p.moved), schemes, {k})
    ensures AllFine(specs, NamesOf(s, p.moved), {k})
  {
    ReadNeeds(specs, jobs, s, p, schemes, all, {k});
  }

  /** Where no slot given up is occupied again, nothing else survives. */
  lemma PassNeeds(specs: Specs, jobs: seq<Job>, s: M.State, pathOps: map<Slot, Claim>, p: Pass,
                  schemes: map<string, Node>)
    requires Imported(specs, jobs, s, pathOps) && Settled(specs, s, p)
    ensures MeaningNeeds(specs, jobs, DocumentOf(pathOps, p, schemes), NamesOf(s, p.moved), schemes)
  {
    var doc, names := DocumentOf(pathOps, p, schemes), NamesOf(s, p.moved);
    if NoneRetaken(names, schemes) && KeysOnce(specs, jobs, s.imported.Keys) {
      forall j | j in jobs && NoneHidden(specs, names, schemes, M.Targets(j.spec, j.node))
                 && OperationMeans(specs, doc.components, doc.operations, j)
        ensures OperationFine(specs, names, j)
      {
        assert ClaimRight(s.imported, pathOps, j) && Buildable(specs, j);
        OperationNeeds(specs, jobs, s, p, schemes, doc.components, j.spec, j.node);
      }
      forall k | k in names.first && NoneHidden(specs, names, schemes, {k})
                 && ComponentMeans(specs, doc.components, names.final, k)
        ensures AllFine(specs, names, {k})
      {
        ComponentsNeed(specs, jobs, s, p, schemes, doc.components, k);
      }
    }
  }
}
