/** The merge end to end: operations in, one document out. */
module Merge {
  import opened Wrappers
  import opened Text
  import opened JsonPointer
  import opened Nodes
  import opened Operations
  import opened Arrange
  import opened Assembly
  import opened Copying
  import opened Documents
  import opened Reading
  import M = Merger
  import D = Dedupe
  import P = Publishing

  // ---- names ----

  lemma CollapsesAsGroup(specs: Specs, s: M.State, k: Key)
    requires P.Drained(specs, s) && D.Filled(s.comps) && k in s.imported && M.SlotOf(s.imported, k) in s.comps
    requires Collapses(specs, s.imported.Keys, k)
    ensures var keys, g := D.GroupsOf(s.comps), D.GroupsOf(s.comps)[M.SlotOf(s.imported, k)];
            |D.Members(keys, g)| >= 2 && !D.Contested(keys, g)
  {
    var keys, slot := D.GroupsOf(s.comps), M.SlotOf(s.imported, k);
    var g := keys[slot];
    GroupOfKey(specs, s, k);
    var j :| j in s.imported && j != k && j.id == k.id;
    assert SamePrint(specs, j, k);
    GroupOfKey(specs, s, j);
    if M.SlotOf(s.imported, j) == slot {
      P.NamesInjective(specs, s, j, k);
    }
    D.SubsetSize({slot, M.SlotOf(s.imported, j)}, D.Members(keys, g));
    forall x | x in keys && keys[x].section == g.section && keys[x].base == g.base ensures keys[x] == g {
      P.SlotWellFormed(specs, s, x);
      GroupOfKey(specs, s, s.comps[x].key);
      assert SamePrint(specs, s.comps[x].key, k);
    }
  }

  lemma GroupCollapses(specs: Specs, s: M.State, k: Key)
    requires P.Drained(specs, s) && D.Filled(s.comps) && k in s.imported && M.SlotOf(s.imported, k) in s.comps
    requires |D.Members(D.GroupsOf(s.comps), D.GroupsOf(s.comps)[M.SlotOf(s.imported, k)])| >= 2
    requires !D.Contested(D.GroupsOf(s.comps), D.GroupsOf(s.comps)[M.SlotOf(s.imported, k)])
    ensures Collapses(specs, s.imported.Keys, k)
  {
    var keys, slot := D.GroupsOf(s.comps), M.SlotOf(s.imported, k);
    var g := keys[slot];
    GroupOfKey(specs, s, k);
    if D.Members(keys, g) <= {slot} {
      D.SubsetSize(D.Members(keys, g), {slot});
    }
    var x :| x in D.Members(keys, g) && x != slot;
    P.SlotWellFormed(specs, s, x);
    GroupOfKey(specs, s, s.comps[x].key);
    forall j | j in s.imported && j.id == k.id ensures SamePrint(specs, j, k) {
      GroupOfKey(specs, s, j);
      assert keys[M.SlotOf(s.imported, j)].section == g.section;
    }
  }

  lemma PlainFreeIsFree(specs: Specs, s: M.State)
    requires P.Drained(specs, s) && D.Filled(s.comps) && PlainFree(FirstHomes(s))
    ensures D.PlainNamesFree(s.comps)
  {
    FirstHomesAreSlots(specs, s);
    forall x, y | x in s.comps && y in s.comps
      ensures CompId(x.section, Capitalise(s.comps[x].baseName)) !in s.comps
      ensures x.section == y.section && Capitalise(s.comps[x].baseName) == Capitalise(s.comps[y].baseName)
              ==> s.comps[x].baseName == s.comps[y].baseName
    {
      P.SlotWellFormed(specs, s, x);
      P.SlotWellFormed(specs, s, y);
      var j, k := s.comps[x].key, s.comps[y].key;
      ImportedKey(specs, s, j);
      ImportedKey(specs, s, k);
      assert Unprefixed(j) !in FirstHomes(s).Values && (Unprefixed(j) == Unprefixed(k) ==> j.id == k.id);
    }
  }

  lemma FirstHomesAreSlots(specs: Specs, s: M.State)
    requires P.Drained(specs, s) && D.Filled(s.comps)
    ensures FirstHomes(s).Values == s.comps.Keys
  {
    var first := FirstHomes(s);
    forall id ensures id in first.Values <==> id in s.comps {
      if id in s.comps {
        P.SlotWellFormed(specs, s, id);
        assert first[s.comps[id].key] == id;
      }
      if id in first.Values {
        var k :| k in first && first[k] == id;
        ImportedKey(specs, s, k);
      }
    }
  }

  lemma MovesExactly(specs: Specs, s: M.State, p: Pass, k: Key)
    requires P.Drained(specs, s) && D.Filled(s.comps)
    requires D.Collapsed(s.comps, D.GroupsOf(s.comps), p.after, p.aliases, p.moved, p.like)
    requires D.PlainNamesFree(s.comps) && k in s.imported
    ensures var slot := M.SlotOf(s.imported, k);
      && (D.Home(p.moved, slot) != slot <==> Collapses(specs, s.imported.Keys, k))
      && (D.Home(p.moved, slot) != slot ==> D.Home(p.moved, slot) == Unprefixed(k))
  {
    var slot := M.SlotOf(s.imported, k);
    GroupOfKey(specs, s, k);
    D.CollapsesOnto(s.comps, p.after, p.aliases, p.moved, p.like, slot);
    if Collapses(specs, s.imported.Keys, k) {
      CollapsesAsGroup(specs, s, k);
    } else if D.Home(p.moved, slot) != slot {
      GroupCollapses(specs, s, k);
    }
  }

  lemma CollapseIsRight(specs: Specs, s: M.State, p: Pass, k: Key)
    requires P.Drained(specs, s) && D.Filled(s.comps)
    requires D.Collapsed(s.comps, D.GroupsOf(s.comps), p.after, p.aliases, p.moved, p.like)
    requires PlainFree(FirstHomes(s)) && k in s.imported
    ensures CollapsedRight(specs, NamesOf(s, p.moved), k)
  {
    PlainFreeIsFree(specs, s);
    MovesExactly(specs, s, p, k);
    assert FirstHomes(s).Keys == s.imported.Keys;
  }

  /** The pass over a state: a dedupe pass if one was asked for. */
  ghost predicate AsAsked(opt: Options, s: M.State, p: Pass)
    requires D.Filled(s.comps)
  {
    if opt.dedupe then D.Collapsed(s.comps, D.GroupsOf(s.comps), p.after, p.aliases, p.moved, p.like)
    else p.moved == map[]
  }

  lemma FirstNamesWork(specs: Specs, jobs: seq<Job>, s: M.State, p: Pass)
    requires Settled(specs, s, p) && NamesRight(jobs, s.imported, s.comps.Keys)
    ensures FirstRight(jobs, NamesOf(s, p.moved))
  {
    var names := NamesOf(s, p.moved);
    SectionsStay(specs, s, p);
    FirstHomesAreSlots(specs, s);
    forall k | k in names.first ensures NamedBy(jobs, names.first.Values, k, names.first[k].name) {
      assert NamedBy(jobs, s.comps.Keys, k, s.imported[k]);
    }
    forall j, k | j in names.first && k in names.first && names.first[j] == names.first[k] ensures j == k {
      P.NamesInjective(specs, s, j, k);
    }
  }

  lemma HomesAreShared(specs: Specs, s: M.State, p: Pass)
    requires Settled(specs, s, p)
    ensures SharedRight(specs, NamesOf(s, p.moved))
  {
    var names := NamesOf(s, p.moved);
    forall j, k | j in names.final && k in names.final && names.final[j] == names.final[k]
      ensures j.id == k.id && SamePrint(specs, j, k)
    {
      var h := Holder(specs, s, p, j);
      var i := Holder(specs, s, p, k);
    }
  }

  lemma NamesWorkOut(specs: Specs, jobs: seq<Job>, opt: Options, s: M.State, p: Pass)
    requires Settled(specs, s, p) && NamesRight(jobs, s.imported, s.comps.Keys) && AsAsked(opt, s, p)
    ensures NamesWork(specs, jobs, opt, NamesOf(s, p.moved))
  {
    FirstNamesWork(specs, jobs, s, p);
    HomesAreShared(specs, s, p);
    if opt.dedupe && PlainFree(FirstHomes(s)) {
      forall k | k in s.imported ensures CollapsedRight(specs, NamesOf(s, p.moved), k) {
        CollapseIsRight(specs, s, p, k);
      }
    }
  }

  // ---- both ways of finishing ----

  lemma PassPublished(specs: Specs, jobs: seq<Job>, opt: Options, s: M.State, pathOps: map<Slot, Claim>, p: Pass)
    requires Imported(specs, jobs, s, pathOps) && Settled(specs, s, p)
    requires AsAsked(opt, s, p)
    ensures Published(specs, jobs, opt, DocumentOf(pathOps, p, opt.securitySchemes), NamesOf(s, p.moved))
  {
    ImportedIsMergeable(specs, jobs, s, pathOps);
    assert FirstHomes(s).Keys == s.imported.Keys;
    NamesWorkOut(specs, jobs, opt, s, p);
    AssembledHolds(specs, s, p, opt.securitySchemes);
    NoDanglingExactly(specs, jobs, s, pathOps, p, opt.securitySchemes);
    PassMeans(specs, jobs, s, pathOps, p, opt.securitySchemes);
    PassNeeds(specs, jobs, s, pathOps, p, opt.securitySchemes);
  }

  /** With dedupe off. */
  lemma PlainPublished(specs: Specs, jobs: seq<Job>, opt: Options, s: M.State, pathOps: map<Slot, Claim>)
    requires Imported(specs, jobs, s, pathOps) && !opt.dedupe
    ensures Published(specs, jobs, opt,
                      Document(OperationNodes(pathOps, map[]), Assembled(D.DocOf(s.comps), opt.securitySchemes)),
                      Names(FirstHomes(s), FirstHomes(s)))
  {
    D.NothingMoved(s.comps);
    PassPublished(specs, jobs, opt, s, pathOps, Pass(s.comps, map[], map[], map[]));
    assert MovedHomes(s, map[]) == FirstHomes(s);
  }

  /** With dedupe on, whichever order the groups were taken in. */
  lemma DedupedPublished(specs: Specs, jobs: seq<Job>, opt: Options, s: M.State, pathOps: map<Slot, Claim>, p: Pass)
    requires Imported(specs, jobs, s, pathOps) && opt.dedupe
    requires D.Collapsed(s.comps, D.GroupsOf(s.comps), p.after, p.aliases, p.moved, p.like)
    ensures D.AllFilled(p.after)
    ensures Published(specs, jobs, opt, DocumentOf(pathOps, p, opt.securitySchemes), NamesOf(s, p.moved))
  {
    D.CollapsedIsPlaced(s.comps, p.after, p.aliases, p.moved, p.like);
    PassPublished(specs, jobs, opt, s, pathOps, p);
  }

  /** The first half of a merge: copy the operations, then drain the worklist. */
  method ImportAll(m: M.Merger, ops: seq<ExposedOp>) returns (r: Result<map<Slot, Claim>, M.Error>)
    requires AllLoaded(m.specs, ops) && m.Valid() && m.View() == M.State(map[], map[], []) && m.introduced == {}
    modifies m
    ensures r.Ok? ==> Imported(m.specs, Jobs(m.specs, ops), m.View(), r.value)
    ensures r.Err? ==> !Mergeable(m.specs, Jobs(m.specs, ops))
    ensures r.Err? && r.error.Collision? ==> !Distinct(Jobs(m.specs, ops)) && Clashes(ops, r.error)
  {
    ghost var jobs := Jobs(m.specs, ops);
    r := CopyOperations(m, ops);
    if r.Err? {
      return;
    }
    ghost var before := m.View();
    var err := m.DrainQueue(Roots(jobs));
    if err.Some? {
      StuckNotMergeable(m.specs, jobs);
      return Err(err.value);
    }
    NamedByJobs(jobs, m.introduced, m.View());
    DrainedImported(m.specs, jobs, before, m.View(), r.value);
  }

  lemma StuckNotMergeable(specs: Specs, jobs: seq<Job>)
    requires M.Stuck(specs, Roots(jobs))
    ensures !Mergeable(specs, jobs)
  {
  }

  lemma DrainedImported(specs: Specs, jobs: seq<Job>, s: M.State, t: M.State, pathOps: map<Slot, Claim>)
    requires Copied(specs, jobs, s, pathOps) && M.NamesKept(s.imported, t.imported)
    requires P.Drained(specs, t) && M.ExactlyReachable(specs, Roots(jobs), t.imported.Keys)
    requires NamesRight(jobs, t.imported, t.comps.Keys)
    ensures Imported(specs, jobs, t, pathOps)
  {
    ClaimsKept(specs, jobs, s.imported, t.imported, pathOps);
    P.DrainedIsFilled(specs, t);
  }

  /** The second half: dedupe if asked, redirect, assemble. */
  method Finish(comps: D.Comps, pathOps: map<Slot, Claim>, opt: Options,
                ghost specs: Specs, ghost jobs: seq<Job>, ghost s: M.State) returns (doc: Document, ghost names: Names)
    requires Imported(specs, jobs, s, pathOps) && comps == s.comps
    requires forall slot | slot in pathOps :: slot.verb in HTTP_METHODS
    ensures Published(specs, jobs, opt, doc, names)
  {
    if opt.dedupe {
      var after, aliases := D.Dedupe(comps);
      ghost var moved, like :| D.Collapsed(comps, D.GroupsOf(comps), after, aliases, moved, like);
      names := NamesOf(s, moved);
      DedupedPublished(specs, jobs, opt, s, pathOps, Pass(after, aliases, moved, like));
      EveryVerbListed(OperationNodes(pathOps, aliases));
      doc := Document(AssembledOperations(OperationNodes(pathOps, aliases)),
                      Assembled(D.Aliased(after, aliases), opt.securitySchemes));
    } else {
      names := Names(FirstHomes(s), FirstHomes(s));
      PlainPublished(specs, jobs, opt, s, pathOps);
      D.NothingMoved(comps);
      EveryVerbListed(OperationNodes(pathOps, map[]));
      doc := Document(AssembledOperations(OperationNodes(pathOps, map[])),
                      Assembled(D.Aliased(comps, map[]), opt.securitySchemes));
    }
  }

  /** The merge of operations already in order. */
  method MergeSorted(specs: Specs, ops: seq<ExposedOp>, opt: Options)
    returns (r: Result<Document, M.Error>, ghost names: Names)
    requires AllLoaded(specs, ops)
    ensures r.Ok? <==> Mergeable(specs, Jobs(specs, ops))
    ensures r.Err? && r.error.Collision? ==> !Distinct(Jobs(specs, ops)) && Clashes(ops, r.error)
    ensures r.Ok? ==> Published(specs, Jobs(specs, ops), opt, r.value, names)
  {
    names := Names(map[], map[]);
    var m := new M.Merger(specs);
    var imported := ImportAll(m, ops);
    if imported.Err? {
      return Err(imported.error), names;
    }
    ghost var jobs := Jobs(specs, ops);
    ImportedIsMergeable(specs, jobs, m.View(), imported.value);
    SlotVerbs(specs, ops);
    var doc;
    doc, names := Finish(m.comps, imported.value, opt, specs, jobs, m.View());
    return Ok(doc), names;
  }

  /** `Merge`. It takes the operations by path and method, so in an order of its own. It
      succeeds exactly when no slot is claimed twice and every reference met is local and
      resolves; what it then publishes is `Published`, and a collision names the claimant that
      came first in that order and the one that came second. */
  method Merge(specs: Specs, ops: seq<ExposedOp>, opt: Options)
    returns (r: Result<Document, M.Error>, ghost names: Names)
    requires AllLoaded(specs, ops)
    ensures r.Ok? <==> Mergeable(specs, Jobs(specs, ops))
    ensures r.Err? && r.error.Collision? ==> !Distinct(Jobs(specs, ops)) && Clashes(Arranged(ops), r.error)
    ensures r.Ok? ==> Published(specs, Jobs(specs, ops), opt, r.value, names)
  {
    ArrangedJobs(specs, ops);
    r, names := MergeSorted(specs, Arranged(ops), opt);
    if r.Ok? {
      PublishedAnyOrder(specs, Jobs(specs, Arranged(ops)), Jobs(specs, ops), opt, r.value, names);
    }
  }

  lemma SlotVerbs(specs: Specs, ops: seq<ExposedOp>)
    requires AllLoaded(specs, ops)
    ensures forall slot | slot in Slots(Jobs(specs, ops)) :: slot.verb in HTTP_METHODS
  {
    forall slot | slot in Slots(Jobs(specs, ops)) ensures slot.verb in HTTP_METHODS {
      var j :| j in Jobs(specs, ops) && j.slot == slot;
      var i :| 0 <= i < |ops| && Jobs(specs, ops)[i] == j;
      assert Loaded(specs, ops[i]);
    }
  }

  /** Assembly walks the known methods; loading admits no other. */
  lemma EveryVerbListed(operations: map<Slot, Node>)
    requires forall slot | slot in operations :: slot.verb in HTTP_METHODS
    ensures AssembledOperations(operations) == operations
  {
  }
}
