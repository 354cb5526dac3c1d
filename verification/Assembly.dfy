/** The document assembled from the state a merge ends with: where its components live, what
    the references of its copies read, and which of them resolve. */
module Assembly {
  import opened Wrappers
  import opened Text
  import opened JsonPointer
  import opened Nodes
  import opened Meaning
  import opened Operations
  import opened Copying
  import opened Documents
  import M = Merger
  import D = Dedupe
  import P = Publishing

  // ---- the state behind the document ----

  function OperationNodes(pathOps: map<Slot, Claim>, aliases: map<string, string>): map<Slot, Node> {
    map slot | slot in pathOps :: Rewrite(pathOps[slot].node, aliases)
  }

  function FirstHomes(s: M.State): Homes {
    map k | k in s.imported :: M.SlotOf(s.imported, k)
  }

  function MovedHomes(s: M.State, moved: map<CompId, CompId>): Homes {
    map k | k in s.imported :: D.Home(moved, M.SlotOf(s.imported, k))
  }

  function NamesOf(s: M.State, moved: map<CompId, CompId>): Names {
    Names(FirstHomes(s), MovedHomes(s, moved))
  }

  /** A dedupe pass over the imported components, or none. */
  datatype Pass = Pass(after: D.Comps, aliases: map<string, string>, moved: map<CompId, CompId>,
                       like: map<CompId, CompId>)

  /** The state once that pass is over. */
  ghost predicate Settled(specs: Specs, s: M.State, p: Pass) {
    P.Drained(specs, s) && D.Filled(s.comps)
      && D.Placed(s.comps, D.GroupsOf(s.comps), p.after, p.aliases, p.moved, p.like)
  }

  /** What an imported component left in the state. */
  lemma ImportedKey(specs: Specs, s: M.State, k: Key)
    requires P.Drained(specs, s) && D.Filled(s.comps) && k in s.imported
    ensures M.Known(specs, k) && M.RefsImported(s.imported, k.spec, M.NodeOf(specs, k))
    ensures var slot := M.SlotOf(s.imported, k);
      && slot in s.comps && s.comps[slot].key == k && s.comps[slot].baseName == k.id.name
      && s.comps[slot].node == Some(M.Publish(s.imported, k.spec, M.NodeOf(specs, k)))
  {
    P.KeyWellFormed(specs, s, k);
    var slot := M.SlotOf(s.imported, k);
    assert M.SlotHeld(specs, s, slot) && s.comps[slot].node.Some?;
    assert M.HoldsCopy(specs, s.imported, k, s.comps[slot].node.value);
  }

  /** A component's section, name and print decide its group. */
  lemma GroupOfKey(specs: Specs, s: M.State, k: Key)
    requires P.Drained(specs, s) && D.Filled(s.comps) && k in s.imported
    ensures M.Known(specs, k) && M.SlotOf(s.imported, k) in s.comps
    ensures D.GroupsOf(s.comps)[M.SlotOf(s.imported, k)] == D.GroupKey(k.id.section, k.id.name, PrintOf(specs, k))
  {
    ImportedKey(specs, s, k);
    P.PublishKeepsPrint(specs, s, k);
  }

  /** The component whose node sits at the home of `k`: one with its id and its print, and the
      least-named of those that live there. */
  lemma Holder(specs: Specs, s: M.State, p: Pass, k: Key) returns (h: Key)
    requires Settled(specs, s, p) && k in s.imported
    ensures h in s.imported && h.id == k.id && SamePrint(specs, h, k)
    ensures var names := NamesOf(s, p.moved);
      && names.final[k] in p.after && names.final[h] == names.final[k]
      && M.SlotOf(s.imported, h) in s.comps && p.after[names.final[k]] == s.comps[M.SlotOf(s.imported, h)]
      && p.after[names.final[k]].key == h
      && M.SlotOf(s.imported, h) == D.StandIn(p.moved, p.like, M.SlotOf(s.imported, k))
      && Leq(names.first[h].name, names.first[k].name)
      && names.final[k].section == k.id.section
  {
    var slot := M.SlotOf(s.imported, k);
    P.KeyWellFormed(specs, s, k);
    assert D.PlacedOne(s.comps, D.GroupsOf(s.comps), p.after, p.moved, p.like, slot);
    var x := D.StandIn(p.moved, p.like, slot);
    P.SlotWellFormed(specs, s, x);
    h := s.comps[x].key;
    GroupOfKey(specs, s, h);
    GroupOfKey(specs, s, k);
  }

  /** Exactly the kept components have their own node at their home. */
  lemma HoldsOwn(specs: Specs, s: M.State, p: Pass, k: Key)
    requires Settled(specs, s, p) && k in s.imported
    ensures NamesOf(s, p.moved).final[k] in p.after
    ensures AtHome(NamesOf(s, p.moved), k) <==> p.after[NamesOf(s, p.moved).final[k]].key == k
  {
    var names := NamesOf(s, p.moved);
    var h := Holder(specs, s, p, k);
    if h == k {
      forall j | j in names.final && names.final[j] == names.final[k]
        ensures Leq(names.first[k].name, names.first[j].name)
      {
        var i := Holder(specs, s, p, j);
      }
    }
    if AtHome(names, k) {
      assert names.final[h] == names.final[k];
      LeqAntisymmetric(names.first[h].name, names.first[k].name);
      P.NamesInjective(specs, s, h, k);
    }
  }

  lemma NodeAtHome(specs: Specs, s: M.State, p: Pass, k: Key)
    requires Settled(specs, s, p) && AtHome(NamesOf(s, p.moved), k)
    ensures k in s.imported && M.Known(specs, k) && M.RefsImported(s.imported, k.spec, M.NodeOf(specs, k))
    ensures NamesOf(s, p.moved).final[k] in p.after
    ensures p.after[NamesOf(s, p.moved).final[k]].node == Some(M.Publish(s.imported, k.spec, M.NodeOf(specs, k)))
  {
    HoldsOwn(specs, s, p, k);
    var h := Holder(specs, s, p, k);
    ImportedKey(specs, s, k);
  }

  /** Every slot left over is the home of a kept component. */
  lemma AtHomeIn(specs: Specs, s: M.State, p: Pass, slot: CompId) returns (k: Key)
    requires Settled(specs, s, p) && slot in p.after
    ensures k in s.imported && AtHome(NamesOf(s, p.moved), k) && NamesOf(s, p.moved).final[k] == slot
  {
    assert D.Inhabited(D.GroupsOf(s.comps), p.moved, slot);
    var id :| id in D.GroupsOf(s.comps) && D.Home(p.moved, id) == slot;
    P.SlotWellFormed(specs, s, id);
    k := Holder(specs, s, p, s.comps[id].key);
    HoldsOwn(specs, s, p, k);
  }

  lemma HomesAreSlots(specs: Specs, s: M.State, p: Pass)
    requires Settled(specs, s, p)
    ensures forall id {:trigger id in p.after} :: id in p.after <==> id in MovedHomes(s, p.moved).Values
  {
    var homes := MovedHomes(s, p.moved);
    forall id ensures id in p.after <==> id in homes.Values {
      if id in p.after {
        var k := AtHomeIn(specs, s, p, id);
        assert homes[k] == id;
      }
      if id in homes.Values {
        var k :| k in homes && homes[k] == id;
        var h := Holder(specs, s, p, k);
      }
    }
  }

  // ---- what the references of a copy read ----

  lemma PublishPrints(specs: Specs, s: M.State, spec: SpecId, n: Node, q: string)
    requires M.Consistent(specs, s) && M.RefsImported(s.imported, spec, n) && q in Refs(n)
    ensures ParseLocalRef(q).Some? && M.Key(spec, ParseLocalRef(q).value.id) in s.imported
    ensures var k, r := M.Key(spec, ParseLocalRef(q).value.id), Renamed(M.PublishMap(s.imported, spec, Refs(n)), q);
            && D.Printed(s.comps.Keys, r)
            && ParseLocalRef(r) == Some(Ref(M.SlotOf(s.imported, k), ParseLocalRef(q).value.tail))
  {
    M.TargetOf(spec, n, q);
    var k := M.Key(spec, ParseLocalRef(q).value.id);
    P.KeyWellFormed(specs, s, k);
    ParseRefText(M.SlotOf(s.imported, k), ParseLocalRef(q).value.tail);
  }

  lemma ReadsRight(specs: Specs, s: M.State, p: Pass, spec: SpecId, n: Node, q: string)
    requires Settled(specs, s, p) && M.RefsImported(s.imported, spec, n) && q in Refs(n)
    ensures Reads(NamesOf(s, p.moved), spec, q, Renamed(p.aliases, Renamed(M.PublishMap(s.imported, spec, Refs(n)), q)))
  {
    PublishPrints(specs, s, spec, n, q);
    D.SentBy(s.comps, D.GroupsOf(s.comps), p.after, p.aliases, p.moved, p.like,
             Renamed(M.PublishMap(s.imported, spec, Refs(n)), q));
  }

  /** The copy of a node reads what the source reads, reference by reference. */
  lemma CopyReads(specs: Specs, s: M.State, p: Pass, spec: SpecId, n: Node, q: string) returns (r: string)
    requires Settled(specs, s, p) && M.RefsImported(s.imported, spec, n) && q in Refs(n)
    ensures r in Refs(Rewrite(M.Publish(s.imported, spec, n), p.aliases)) && Reads(NamesOf(s, p.moved), spec, q, r)
  {
    var once := Renamed(M.PublishMap(s.imported, spec, Refs(n)), q);
    RewriteHits(n, M.PublishMap(s.imported, spec, Refs(n)), q);
    RewriteHits(M.Publish(s.imported, spec, n), p.aliases, once);
    ReadsRight(specs, s, p, spec, n, q);
    r := Renamed(p.aliases, once);
  }

  lemma CopyReadsOnly(specs: Specs, s: M.State, p: Pass, spec: SpecId, n: Node, r: string) returns (q: string)
    requires Settled(specs, s, p) && M.RefsImported(s.imported, spec, n)
    requires r in Refs(Rewrite(M.Publish(s.imported, spec, n), p.aliases))
    ensures q in Refs(n) && Reads(NamesOf(s, p.moved), spec, q, r)
  {
    RewrittenRef(M.Publish(s.imported, spec, n), p.aliases, r);
    var once :| once in Refs(M.Publish(s.imported, spec, n)) && r == Renamed(p.aliases, once);
    RewrittenRef(n, M.PublishMap(s.imported, spec, Refs(n)), once);
    q :| q in Refs(n) && once == Renamed(M.PublishMap(s.imported, spec, Refs(n)), q);
    ReadsRight(specs, s, p, spec, n, q);
  }

  // ---- assembly ----

  /** The components of the assembled document: the known sections only, with the gateway's
      own security schemes laid over any imported one of the same name. */
  function Assembled(components: Doc, schemes: map<string, Node>): Doc {
    map id | id in components.Keys + SchemeIds(schemes) && id.section in SECTIONS ::
      if id in SchemeIds(schemes) then schemes[id.name] else components[id]
  }

  function AssembledOperations(operations: map<Slot, Node>): map<Slot, Node> {
    map slot | slot in operations && slot.verb in HTTP_METHODS :: operations[slot]
  }

  function DocumentOf(pathOps: map<Slot, Claim>, p: Pass, schemes: map<string, Node>): Document
    requires D.AllFilled(p.after)
  {
    Document(OperationNodes(pathOps, p.aliases), Assembled(D.Aliased(p.after, p.aliases), schemes))
  }

  lemma AssembledHolds(specs: Specs, s: M.State, p: Pass, schemes: map<string, Node>)
    requires Settled(specs, s, p)
    ensures HoldsExactly(Assembled(D.Aliased(p.after, p.aliases), schemes), MovedHomes(s, p.moved), schemes)
  {
    HomesAreSlots(specs, s, p);
    assert forall n | n in schemes :: CompId("securitySchemes", n) in SchemeIds(schemes);
  }

  ghost predicate SectionsKept(names: Names) {
    forall k {:trigger names.first[k]} | Has(names, k) ::
      names.first[k].section == names.final[k].section == k.id.section
  }

  lemma LandsExactly(all: Doc, names: Names, schemes: map<string, Node>, spec: SpecId, q: string, r: string)
    requires HoldsExactly(all, names.final, schemes) && SectionsKept(names) && Reads(names, spec, q, r)
    ensures ParseLocalRef(r).value.id in all <==> RefLands(names, schemes, spec, q)
  {
    var k := M.Key(spec, ParseLocalRef(q).value.id);
    assert names.final[k] in names.final.Values && names.first[k].section == k.id.section;
  }

  lemma NodeLandsExactly(specs: Specs, s: M.State, p: Pass, all: Doc, schemes: map<string, Node>, spec: SpecId, n: Node)
    requires Settled(specs, s, p) && M.RefsImported(s.imported, spec, n)
    requires HoldsExactly(all, MovedHomes(s, p.moved), schemes) && SectionsKept(NamesOf(s, p.moved))
    ensures Resolves(all, Rewrite(M.Publish(s.imported, spec, n), p.aliases))
            <==> NodeLands(NamesOf(s, p.moved), schemes, spec, n)
  {
    var names, copy := NamesOf(s, p.moved), Rewrite(M.Publish(s.imported, spec, n), p.aliases);
    if Resolves(all, copy) {
      forall q | q in Refs(n) ensures RefLands(names, schemes, spec, q) {
        var r := CopyReads(specs, s, p, spec, n, q);
        LandsExactly(all, names, schemes, spec, q, r);
      }
    }
    if NodeLands(names, schemes, spec, n) {
      forall r | r in Refs(copy) ensures ParseLocalRef(r).Some? && ParseLocalRef(r).value.id in all {
        var q := CopyReadsOnly(specs, s, p, spec, n, r);
        LandsExactly(all, names, schemes, spec, q, r);
      }
    }
  }

  lemma SectionsStay(specs: Specs, s: M.State, p: Pass)
    requires Settled(specs, s, p)
    ensures SectionsKept(NamesOf(s, p.moved))
  {
    forall k | k in s.imported ensures MovedHomes(s, p.moved)[k].section == k.id.section {
      var h := Holder(specs, s, p, k);
    }
  }

  lemma OperationLands(specs: Specs, jobs: seq<Job>, s: M.State, pathOps: map<Slot, Claim>, p: Pass,
                       schemes: map<string, Node>, j: Job)
    requires Imported(specs, jobs, s, pathOps) && Settled(specs, s, p) && j in jobs
    ensures var doc := DocumentOf(pathOps, p, schemes);
      && j.slot in doc.operations
      && (Resolves(doc.components, doc.operations[j.slot]) <==> NodeLands(NamesOf(s, p.moved), schemes, j.spec, j.node))
  {
    AssembledHolds(specs, s, p, schemes);
    SectionsStay(specs, s, p);
    assert ClaimRight(s.imported, pathOps, j);
    NodeLandsExactly(specs, s, p, DocumentOf(pathOps, p, schemes).components, schemes, j.spec, j.node);
  }

  lemma ShownLands(specs: Specs, s: M.State, p: Pass, schemes: map<string, Node>, k: Key)
    requires Settled(specs, s, p) && Shown(NamesOf(s, p.moved), schemes, k)
    ensures M.Known(specs, k)
    ensures var all, id := Assembled(D.Aliased(p.after, p.aliases), schemes), NamesOf(s, p.moved).final[k];
      && id in all && id !in SchemeIds(schemes)
      && (Resolves(all, all[id]) <==> NodeLands(NamesOf(s, p.moved), schemes, k.spec, M.NodeOf(specs, k)))
  {
    AssembledHolds(specs, s, p, schemes);
    SectionsStay(specs, s, p);
    NodeAtHome(specs, s, p, k);
    NodeLandsExactly(specs, s, p, Assembled(D.Aliased(p.after, p.aliases), schemes), schemes,
                     k.spec, M.NodeOf(specs, k));
    assert NamesOf(s, p.moved).first[k].section == k.id.section;
  }

  lemma ShownAt(specs: Specs, s: M.State, p: Pass, schemes: map<string, Node>, id: CompId) returns (k: Key)
    requires Settled(specs, s, p)
    requires id in Assembled(D.Aliased(p.after, p.aliases), schemes) && id !in SchemeIds(schemes)
    ensures Shown(NamesOf(s, p.moved), schemes, k) && NamesOf(s, p.moved).final[k] == id
  {
    SectionsStay(specs, s, p);
    k := AtHomeIn(specs, s, p, id);
    assert NamesOf(s, p.moved).first[k].section == k.id.section;
  }

  /** Nothing dangles exactly when every reference on show lands. */
  lemma NoDanglingExactly(specs: Specs, jobs: seq<Job>, s: M.State, pathOps: map<Slot, Claim>, p: Pass,
                          schemes: map<string, Node>)
    requires Imported(specs, jobs, s, pathOps) && Settled(specs, s, p)
    ensures NoDangling(DocumentOf(pathOps, p, schemes), schemes) <==> AllLand(specs, jobs, NamesOf(s, p.moved), schemes)
  {
    var doc, names := DocumentOf(pathOps, p, schemes), NamesOf(s, p.moved);
    if NoDangling(doc, schemes) {
      forall j | j in jobs ensures NodeLands(names, schemes, j.spec, j.node) {
        OperationLands(specs, jobs, s, pathOps, p, schemes, j);
      }
      forall k | Shown(names, schemes, k) && M.Known(specs, k)
        ensures NodeLands(names, schemes, k.spec, M.NodeOf(specs, k))
      {
        ShownLands(specs, s, p, schemes, k);
      }
    }
    if AllLand(specs, jobs, names, schemes) {
      forall slot | slot in doc.operations ensures Resolves(doc.components, doc.operations[slot]) {
        var j :| j in jobs && j.slot == slot;
        OperationLands(specs, jobs, s, pathOps, p, schemes, j);
        assert NodeLands(names, schemes, j.spec, j.node);
      }
      forall id | id in doc.components && id !in SchemeIds(schemes)
        ensures Resolves(doc.components, doc.components[id])
      {
        var k := ShownAt(specs, s, p, schemes, id);
        ShownLands(specs, s, p, schemes, k);
      }
    }
  }
}
