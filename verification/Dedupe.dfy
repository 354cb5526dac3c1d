/** Collapsing structurally equal components that share a base name. The source ranges over
    Go maps, so groups are processed in an arbitrary order here too. */
module Dedupe {
  import opened Wrappers
  import opened Text
  import opened JsonPointer
  import opened Nodes
  import opened Meaning
  import opened Fingerprint
  import opened Merger

  type Comps = map<CompId, Imported>

  datatype GroupKey = GroupKey(section: string, base: string, form: Print)

  /** Components as the worklist leaves them: filled, under parseable names. */
  predicate Filled(comps: Comps) {
    forall id {:trigger comps[id]} | id in comps ::
      comps[id].node.Some? && WellFormed(id) && comps[id].baseName != ""
  }

  function DocOf(comps: Comps): Doc
    requires Filled(comps)
  {
    map id | id in comps :: comps[id].node.value
  }

  function GroupOf(comps: Comps, id: CompId): GroupKey
    requires Filled(comps) && id in comps
  {
    GroupKey(id.section, comps[id].baseName, HashComponent(DocOf(comps), id, []))
  }

  /** Each component's section, base name and fingerprint. */
  type Groups = map<CompId, GroupKey>

  function GroupsOf(comps: Comps): (keys: Groups)
    requires Filled(comps)
    ensures keys.Keys == comps.Keys
  {
    map id | id in comps :: GroupOf(comps, id)
  }

  function Members(keys: Groups, k: GroupKey): set<CompId> {
    set id | id in keys && keys[id] == k
  }

  /** The un-namespaced slot a group would collapse onto. */
  function Plain(k: GroupKey): CompId {
    CompId(k.section, Capitalise(k.base))
  }

  /** Somebody with the same section and base name has a different structure. */
  predicate Contested(keys: Groups, k: GroupKey) {
    exists x :: x in keys && keys[x].section == k.section && keys[x].base == k.base && keys[x] != k
  }

  /** Where a component lives after the moves. */
  function Home(moved: map<CompId, CompId>, id: CompId): CompId {
    if id in moved then moved[id] else id
  }

  /** Some component lives at `slot`. */
  predicate Inhabited(keys: Groups, moved: map<CompId, CompId>, slot: CompId) {
    exists id :: id in keys && Home(moved, id) == slot
  }

  /** One collapsed component: it shares its base name and structure with another, nobody
      contests the name, and the slot it moved to holds the least-named member's node. */
  predicate MovedRight(comps: Comps, keys: Groups, after: Comps,
                       moved: map<CompId, CompId>, like: map<CompId, CompId>, id: CompId)
  {
    && id in keys && id in moved && id in like && like[id] in comps
    && moved[id] == Plain(keys[id]) && moved[id] != id
    && moved[id] in after && after[moved[id]] == comps[like[id]]
    && like[id] in Members(keys, keys[id])
    && |Members(keys, keys[id])| >= 2 && !Contested(keys, keys[id])
    && (forall x {:trigger x in Members(keys, keys[id])} | x in Members(keys, keys[id]) ::
          x in moved && Leq(like[id].name, x.name))
  }

  /** One untouched component: still in place, and for a reason. */
  predicate StayedRight(comps: Comps, keys: Groups, after: Comps, id: CompId) {
    && id in keys && id in comps && id in after && after[id] == comps[id]
    && (|Members(keys, keys[id])| < 2 || Contested(keys, keys[id])
        || Plain(keys[id]) in comps || Plain(keys[id]) in after)
  }

  predicate Redirected(moved: map<CompId, CompId>, r: string) {
    exists id :: id in moved && r == ComponentRef(id)
  }

  /** `aliases` redirects exactly the collapsed components' whole-component references. */
  predicate AliasesOf(aliases: map<string, string>, moved: map<CompId, CompId>) {
    && (forall id {:trigger ComponentRef(id)} | id in moved ::
          ComponentRef(id) in aliases && aliases[ComponentRef(id)] == ComponentRef(moved[id]))
    && (forall r {:trigger Redirected(moved, r)} | r in aliases :: Redirected(moved, r))
  }

  /** The whole outcome of a dedupe pass over `comps`, grouped by `keys`. */
  ghost predicate Collapsed(comps: Comps, keys: Groups, after: Comps, aliases: map<string, string>,
                            moved: map<CompId, CompId>, like: map<CompId, CompId>)
  {
    && moved.Keys <= comps.Keys == keys.Keys
    && (forall id {:trigger MovedRight(comps, keys, after, moved, like, id)} | id in moved ::
          MovedRight(comps, keys, after, moved, like, id))
    && (forall id {:trigger StayedRight(comps, keys, after, id)} | id in comps && id !in moved ::
          StayedRight(comps, keys, after, id))
    && (forall slot {:trigger Inhabited(keys, moved, slot)} | slot in after :: Inhabited(keys, moved, slot))
    && AliasesOf(aliases, moved)
  }

  // ---- building the groups ----

  predicate Grouped(keys: Groups, done: set<CompId>, groups: map<GroupKey, set<CompId>>) {
    && done <= keys.Keys
    && (forall id {:trigger keys[id]} | id in done :: keys[id] in groups)
    && (forall k {:trigger groups[k]} | k in groups :: groups[k] != {} && groups[k] == Members(keys, k) * done)
  }

  method BuildGroups(comps: Comps) returns (groups: map<GroupKey, set<CompId>>)
    requires Filled(comps)
    ensures Grouped(GroupsOf(comps), comps.Keys, groups)
  {
    groups := map[];
    ghost var keys := GroupsOf(comps);
    var todo := comps.Keys;
    while todo != {}
      invariant todo <= comps.Keys
      invariant Grouped(keys, comps.Keys - todo, groups)
      decreases todo
    {
      var id :| id in todo;
      var k := GroupOf(comps, id);
      GroupStep(keys, comps.Keys - todo, groups, id);
      assert comps.Keys - (todo - {id}) == (comps.Keys - todo) + {id};
      groups := groups[k := (if k in groups then groups[k] else {}) + {id}];
      todo := todo - {id};
    }
    assert comps.Keys - {} == comps.Keys;
  }

  lemma GroupStep(keys: Groups, done: set<CompId>, groups: map<GroupKey, set<CompId>>, id: CompId)
    requires Grouped(keys, done, groups) && id in keys && id !in done
    ensures var k := keys[id];
            Grouped(keys, done + {id}, groups[k := (if k in groups then groups[k] else {}) + {id}])
  {
    var k := keys[id];
    assert Members(keys, k) * done == if k in groups then groups[k] else {} by {
      assert forall x | x in Members(keys, k) * done :: keys[x] in groups;
    }
    var more := groups[k := (if k in groups then groups[k] else {}) + {id}];
    forall g | g in more ensures more[g] != {} && more[g] == Members(keys, g) * (done + {id}) {
      if g != k {
        assert groups[g] == Members(keys, g) * done;
      }
    }
  }

  /** `hashesPerBase`: the distinct structures behind each base name. */
  predicate Counted(done: set<GroupKey>, forms: map<(string, string), set<Print>>) {
    && (forall k {:trigger (k.section, k.base)} | k in done ::
          (k.section, k.base) in forms && k.form in forms[(k.section, k.base)])
    && (forall b, f {:trigger f in forms[b]} | b in forms && f in forms[b] :: GroupKey(b.0, b.1, f) in done)
  }

  method CountForms(groups: map<GroupKey, set<CompId>>) returns (forms: map<(string, string), set<Print>>)
    ensures Counted(groups.Keys, forms)
  {
    forms := map[];
    var todo := groups.Keys;
    while todo != {}
      invariant todo <= groups.Keys
      invariant Counted(groups.Keys - todo, forms)
      decreases todo
    {
      var k :| k in todo;
      var b := (k.section, k.base);
      assert groups.Keys - (todo - {k}) == (groups.Keys - todo) + {k};
      forms := forms[b := (if b in forms then forms[b] else {}) + {k.form}];
      todo := todo - {k};
    }
    assert groups.Keys - {} == groups.Keys;
  }

  lemma SubsetSize<T>(a: set<T>, b: set<T>)
    requires a <= b
    ensures |a| <= |b|
  {
    assert b == a + (b - a);
  }

  lemma SingleForm(keys: Groups, groups: map<GroupKey, set<CompId>>, forms: map<(string, string), set<Print>>,
                   k: GroupKey)
    requires Grouped(keys, keys.Keys, groups) && Counted(groups.Keys, forms) && k in groups
    ensures (k.section, k.base) in forms
    ensures |forms[(k.section, k.base)]| != 1 <==> Contested(keys, k)
  {
    var b := (k.section, k.base);
    assert k.form in forms[b];
    if Contested(keys, k) {
      var x :| x in keys && keys[x].section == k.section && keys[x].base == k.base && keys[x] != k;
      assert keys[x].form in forms[(keys[x].section, keys[x].base)];
      SubsetSize({k.form, keys[x].form}, forms[b]);
    } else {
      forall f | f in forms[b] ensures f == k.form {
        var g := GroupKey(b.0, b.1, f);
        assert groups[g] != {};
        var x :| x in groups[g];
        assert keys[x] == g;
      }
      assert forms[b] == {k.form};
    }
  }

  method Least(ids: set<CompId>) returns (least: CompId)
    requires ids != {}
    ensures least in ids && forall x | x in ids :: Leq(least.name, x.name)
  {
    least :| least in ids;
    LeqTotal(least.name, least.name);
    var todo := ids - {least};
    while todo != {}
      invariant todo <= ids && least in ids
      invariant forall x | x in ids && x !in todo :: Leq(least.name, x.name)
      decreases todo
    {
      var x :| x in todo;
      LeqTotal(x.name, least.name);
      LeqTotal(x.name, x.name);
      if Leq(x.name, least.name) {
        forall y | y in ids && y !in todo ensures Leq(x.name, y.name) {
          LeqTrans(x.name, least.name, y.name);
        }
        least := x;
      }
      todo := todo - {x};
    }
  }

  // ---- collapsing the groups ----

  predicate StayedSoFar(comps: Comps, keys: Groups, now: Comps, todo: set<GroupKey>, id: CompId) {
    && id in keys && id in comps && id in now && now[id] == comps[id]
    && (keys[id] in todo || StayedRight(comps, keys, now, id))
  }

  predicate MovedSoFar(comps: Comps, keys: Groups, todo: set<GroupKey>, now: Comps,
                       moved: map<CompId, CompId>, like: map<CompId, CompId>, id: CompId)
  {
    && MovedRight(comps, keys, now, moved, like, id)
    && keys[id] !in todo
    && (moved[id] in comps ==> moved[id] in moved)
  }

  ghost predicate Collapsing(comps: Comps, keys: Groups, todo: set<GroupKey>, now: Comps,
                             moved: map<CompId, CompId>, like: map<CompId, CompId>)
  {
    && moved.Keys <= comps.Keys == keys.Keys
    && (forall id {:trigger MovedSoFar(comps, keys, todo, now, moved, like, id)} | id in moved ::
          MovedSoFar(comps, keys, todo, now, moved, like, id))
    && (forall id {:trigger StayedSoFar(comps, keys, now, todo, id)} | id in comps && id !in moved ::
          StayedSoFar(comps, keys, now, todo, id))
    && (forall slot {:trigger Inhabited(keys, moved, slot)} | slot in now :: Inhabited(keys, moved, slot))
  }

  function MoveAll(moved: map<CompId, CompId>, ids: set<CompId>, target: CompId): map<CompId, CompId> {
    map id | id in moved.Keys + ids :: if id in ids then target else moved[id]
  }

  /** Leaving a group where it is. */
  lemma SkipStep(comps: Comps, keys: Groups, todo: set<GroupKey>, k: GroupKey, now: Comps,
                 moved: map<CompId, CompId>, like: map<CompId, CompId>)
    requires Collapsing(comps, keys, todo, now, moved, like) && k in todo
    requires |Members(keys, k)| < 2 || Contested(keys, k) || Plain(k) in now
    ensures Collapsing(comps, keys, todo - {k}, now, moved, like)
  {
    forall id | id in comps && id !in moved ensures StayedSoFar(comps, keys, now, todo - {k}, id) {
      assert StayedSoFar(comps, keys, now, todo, id);
    }
    forall id | id in moved ensures MovedSoFar(comps, keys, todo - {k}, now, moved, like, id) {
      assert MovedSoFar(comps, keys, todo, now, moved, like, id);
    }
  }

  /** A group's members before its turn: none moved, all in place. */
  lemma StillThere(comps: Comps, keys: Groups, todo: set<GroupKey>, k: GroupKey, now: Comps,
                   moved: map<CompId, CompId>, like: map<CompId, CompId>)
    requires Collapsing(comps, keys, todo, now, moved, like) && k in todo
    ensures forall id | id in Members(keys, k) :: id !in moved && id in now && id in comps && now[id] == comps[id]
  {
    forall id | id in Members(keys, k) ensures id !in moved && id in now && now[id] == comps[id] {
      assert id in moved ==> MovedSoFar(comps, keys, todo, now, moved, like, id);
      assert id !in moved ==> StayedSoFar(comps, keys, now, todo, id);
    }
  }

  ghost predicate Collapsible(comps: Comps, keys: Groups, todo: set<GroupKey>, k: GroupKey, keep: CompId,
                              now: Comps, moved: map<CompId, CompId>, like: map<CompId, CompId>)
  {
    && Collapsing(comps, keys, todo, now, moved, like) && k in todo
    && |Members(keys, k)| >= 2 && Plain(k) !in now && !Contested(keys, k)
    && keep in Members(keys, k) && keep in now
    && (forall id {:trigger id in Members(keys, k)} | id in Members(keys, k) ::
          id !in moved && id in now && id in comps && now[id] == comps[id] && Leq(keep.name, id.name))
  }

  /** The components once group `k` sits at its plain name. */
  function CollapseAt(now: Comps, keys: Groups, k: GroupKey, keep: CompId): Comps
    requires keep in now
  {
    (now - Members(keys, k))[Plain(k) := now[keep]]
  }

  lemma CollapseMoves(comps: Comps, keys: Groups, todo: set<GroupKey>, k: GroupKey, keep: CompId,
                      now: Comps, moved: map<CompId, CompId>, like: map<CompId, CompId>, id: CompId)
    requires Collapsible(comps, keys, todo, k, keep, now, moved, like)
    requires id in moved || id in Members(keys, k)
    ensures MovedSoFar(comps, keys, todo - {k}, CollapseAt(now, keys, k, keep),
                       MoveAll(moved, Members(keys, k), Plain(k)), MoveAll(like, Members(keys, k), keep), id)
  {
    if id in Members(keys, k) {
      var target := Plain(k);
      assert target in comps && target !in moved ==> StayedSoFar(comps, keys, now, todo, target);
      assert keep in comps && keys[keep] == k;
    } else {
      assert MovedSoFar(comps, keys, todo, now, moved, like, id);
      assert moved[id] !in Members(keys, k);
      assert Members(keys, keys[id]) !! Members(keys, k);
    }
  }

  lemma CollapseStays(comps: Comps, keys: Groups, todo: set<GroupKey>, k: GroupKey, keep: CompId,
                      now: Comps, moved: map<CompId, CompId>, like: map<CompId, CompId>, id: CompId)
    requires Collapsible(comps, keys, todo, k, keep, now, moved, like)
    requires id in comps && id !in moved && id !in Members(keys, k)
    ensures StayedSoFar(comps, keys, CollapseAt(now, keys, k, keep), todo - {k}, id)
  {
    assert StayedSoFar(comps, keys, now, todo, id);
  }

  lemma CollapseInhabits(comps: Comps, keys: Groups, todo: set<GroupKey>, k: GroupKey, keep: CompId,
                         now: Comps, moved: map<CompId, CompId>, like: map<CompId, CompId>, slot: CompId)
    requires Collapsible(comps, keys, todo, k, keep, now, moved, like)
    requires slot in CollapseAt(now, keys, k, keep)
    ensures Inhabited(keys, MoveAll(moved, Members(keys, k), Plain(k)), slot)
  {
    var moved' := MoveAll(moved, Members(keys, k), Plain(k));
    if slot == Plain(k) {
      assert Home(moved', keep) == slot;
    } else {
      assert Inhabited(keys, moved, slot);
      var id :| id in keys && Home(moved, id) == slot;
      assert id !in Members(keys, k);
      assert Home(moved', id) == slot;
    }
  }

  /** Collapsing a group onto a free name disturbs no earlier move: a slot taken by one is
      never a component still waiting to be moved. */
  lemma CollapseStep(comps: Comps, keys: Groups, todo: set<GroupKey>, k: GroupKey, keep: CompId,
                     now: Comps, moved: map<CompId, CompId>, like: map<CompId, CompId>)
    requires Collapsible(comps, keys, todo, k, keep, now, moved, like)
    ensures Collapsing(comps, keys, todo - {k}, CollapseAt(now, keys, k, keep),
                       MoveAll(moved, Members(keys, k), Plain(k)), MoveAll(like, Members(keys, k), keep))
  {
    var ids, now' := Members(keys, k), CollapseAt(now, keys, k, keep);
    var moved', like' := MoveAll(moved, ids, Plain(k)), MoveAll(like, ids, keep);
    forall id | id in moved' ensures MovedSoFar(comps, keys, todo - {k}, now', moved', like', id) {
      CollapseMoves(comps, keys, todo, k, keep, now, moved, like, id);
    }
    forall id | id in comps && id !in moved' ensures StayedSoFar(comps, keys, now', todo - {k}, id) {
      CollapseStays(comps, keys, todo, k, keep, now, moved, like, id);
    }
    forall slot | slot in now' ensures Inhabited(keys, moved', slot) {
      CollapseInhabits(comps, keys, todo, k, keep, now, moved, like, slot);
    }
  }

  lemma RedirectOne(aliases: map<string, string>, moved: map<CompId, CompId>, id: CompId, target: CompId)
    requires AliasesOf(aliases, moved) && WellFormed(id) && forall x | x in moved :: WellFormed(x)
    ensures AliasesOf(aliases[ComponentRef(id) := ComponentRef(target)], moved[id := target])
  {
    var more, after := aliases[ComponentRef(id) := ComponentRef(target)], moved[id := target];
    forall x | x in after ensures ComponentRef(x) in more && more[ComponentRef(x)] == ComponentRef(after[x]) {
      if x != id && ComponentRef(x) == ComponentRef(id) {
        RefTextInjective(x, "", id, "");
      }
    }
    forall r | r in more ensures Redirected(after, r) {
      if r == ComponentRef(id) {
        assert id in after;
      } else {
        assert Redirected(moved, r);
        var x :| x in moved && r == ComponentRef(x);
        assert x in after;
      }
    }
  }

  /** The alias entries of one group. */
  method Redirect(aliases: map<string, string>, ids: set<CompId>, target: CompId, ghost moved: map<CompId, CompId>)
    returns (more: map<string, string>)
    requires AliasesOf(aliases, moved) && ids !! moved.Keys
    requires forall id | id in ids || id in moved :: WellFormed(id)
    ensures AliasesOf(more, MoveAll(moved, ids, target))
  {
    more := aliases;
    var todo := ids;
    ghost var so := moved;
    while todo != {}
      invariant todo <= ids && so == MoveAll(moved, ids - todo, target)
      invariant AliasesOf(more, so)
      decreases todo
    {
      var id :| id in todo;
      RedirectOne(more, so, id, target);
      more := more[ComponentRef(id) := ComponentRef(target)];
      so, todo := so[id := target], todo - {id};
    }
    assert ids - {} == ids;
  }

  /** One group collapses: its members leave their slots, the plain name is taken, and every
      reference to a member is redirected. */
  method CollapseGroup(ghost comps: Comps, ghost keys: Groups, ghost todo: set<GroupKey>, k: GroupKey, ids: set<CompId>,
                       now: Comps, aliases: map<string, string>,
                       ghost moved: map<CompId, CompId>, ghost like: map<CompId, CompId>)
    returns (after: Comps, more: map<string, string>, ghost moved': map<CompId, CompId>,
             ghost like': map<CompId, CompId>)
    requires Collapsing(comps, keys, todo, now, moved, like) && AliasesOf(aliases, moved) && k in todo
    requires ids == Members(keys, k) && |ids| >= 2 && Plain(k) !in now && !Contested(keys, k)
    requires forall id | id in comps :: WellFormed(id)
    ensures Collapsing(comps, keys, todo - {k}, after, moved', like') && AliasesOf(more, moved')
  {
    var target := Plain(k);
    var keep := Least(ids);
    StillThere(comps, keys, todo, k, now, moved, like);
    CollapseStep(comps, keys, todo, k, keep, now, moved, like);
    more := Redirect(aliases, ids, target, moved);
    after := (now - ids)[target := now[keep]];
    moved', like' := MoveAll(moved, ids, target), MoveAll(like, ids, keep);
  }

  /** The pass over the groups, in whatever order they come. */
  method CollapseGroups(comps: Comps, ghost keys: Groups, groups: map<GroupKey, set<CompId>>,
                        forms: map<(string, string), set<Print>>)
    returns (after: Comps, aliases: map<string, string>, ghost moved: map<CompId, CompId>,
             ghost like: map<CompId, CompId>)
    requires keys.Keys == comps.Keys && Grouped(keys, keys.Keys, groups) && Counted(groups.Keys, forms)
    requires forall id | id in comps :: WellFormed(id)
    ensures Collapsed(comps, keys, after, aliases, moved, like)
  {
    after, aliases, moved, like := comps, map[], map[], map[];
    var todo := groups.Keys;
    NothingMovedYet(comps, keys, groups);
    while todo != {}
      invariant todo <= groups.Keys
      invariant Collapsing(comps, keys, todo, after, moved, like) && AliasesOf(aliases, moved)
      decreases todo
    {
      var k :| k in todo;
      var ids := groups[k];
      assert ids == Members(keys, k);
      SingleForm(keys, groups, forms, k);
      if |ids| < 2 || |forms[(k.section, k.base)]| != 1 || Plain(k) in after {
        SkipStep(comps, keys, todo, k, after, moved, like);
      } else {
        after, aliases, moved, like := CollapseGroup(comps, keys, todo, k, ids, after, aliases, moved, like);
      }
      todo := todo - {k};
    }
    AllProcessed(comps, keys, after, aliases, moved, like);
  }

  /** The components and the aliases are those of some dedupe pass. */
  ghost predicate Deduped(comps: Comps, after: Comps, aliases: map<string, string>)
    requires Filled(comps)
  {
    exists moved, like :: Collapsed(comps, GroupsOf(comps), after, aliases, moved, like)
  }

  /** `dedupe`. */
  method Dedupe(comps: Comps) returns (after: Comps, aliases: map<string, string>)
    requires Filled(comps)
    ensures Deduped(comps, after, aliases)
  {
    var groups := BuildGroups(comps);
    var forms := CountForms(groups);
    forall id | id in comps ensures WellFormed(id) {
      assert comps[id].node.Some?;
    }
    ghost var moved, like;
    after, aliases, moved, like := CollapseGroups(comps, GroupsOf(comps), groups, forms);
  }

  lemma NothingMovedYet(comps: Comps, keys: Groups, groups: map<GroupKey, set<CompId>>)
    requires keys.Keys == comps.Keys && Grouped(keys, keys.Keys, groups)
    ensures Collapsing(comps, keys, groups.Keys, comps, map[], map[]) && AliasesOf(map[], map[])
  {
    forall id | id in comps
      ensures StayedSoFar(comps, keys, comps, groups.Keys, id) && Inhabited(keys, map[], id)
    {
      assert keys[id] in groups && Home(map[], id) == id;
    }
  }

  lemma AllProcessed(comps: Comps, keys: Groups, after: Comps, aliases: map<string, string>,
                     moved: map<CompId, CompId>, like: map<CompId, CompId>)
    requires Collapsing(comps, keys, {}, after, moved, like) && AliasesOf(aliases, moved)
    ensures Collapsed(comps, keys, after, aliases, moved, like)
  {
    forall id | id in comps && id !in moved ensures StayedRight(comps, keys, after, id) {
      assert StayedSoFar(comps, keys, after, {}, id);
    }
    forall id | id in moved ensures MovedRight(comps, keys, after, moved, like, id) {
      assert MovedSoFar(comps, keys, {}, after, moved, like, id);
    }
  }

  // ---- where a pass leaves the components ----

  predicate AllFilled(after: Comps) {
    forall slot {:trigger after[slot]} | slot in after :: after[slot].node.Some?
  }

  /** The component whose node stands for `id` afterwards. */
  function StandIn(moved: map<CompId, CompId>, like: map<CompId, CompId>, id: CompId): CompId {
    if id in moved && id in like then like[id] else id
  }

  /** One component after a pass: its home keeps its section and holds the node of the least-named
      component that lives there, one with the same fingerprint. */
  predicate PlacedOne(comps: Comps, keys: Groups, after: Comps, moved: map<CompId, CompId>, like: map<CompId, CompId>,
                      id: CompId)
  {
    var home, x := Home(moved, id), StandIn(moved, like, id);
    && id in keys && x in keys && x in comps && keys[x] == keys[id]
    && home in after && after[home] == comps[x]
    && Home(moved, x) == home && Leq(x.name, id.name)
    && WellFormed(id) && WellFormed(home) && home.section == id.section
    && (id in moved ==> moved[id] != id)
  }

  /** What the rest of the merge needs of the components it is handed, deduped or not. */
  ghost predicate Placed(comps: Comps, keys: Groups, after: Comps, aliases: map<string, string>,
                         moved: map<CompId, CompId>, like: map<CompId, CompId>)
  {
    && moved.Keys <= comps.Keys == keys.Keys
    && AllFilled(after)
    && (forall id {:trigger PlacedOne(comps, keys, after, moved, like, id)} | id in comps ::
          PlacedOne(comps, keys, after, moved, like, id))
    && (forall slot {:trigger Inhabited(keys, moved, slot)} | slot in after :: Inhabited(keys, moved, slot))
    && AliasesOf(aliases, moved)
  }

  lemma PlainWellFormed(comps: Comps, id: CompId)
    requires Filled(comps) && id in comps
    ensures WellFormed(id) && WellFormed(Plain(GroupsOf(comps)[id]))
  {
    assert comps[id].node.Some?;
  }

  lemma CollapsedPlacesOne(comps: Comps, after: Comps, aliases: map<string, string>,
                           moved: map<CompId, CompId>, like: map<CompId, CompId>, id: CompId)
    requires Filled(comps) && Collapsed(comps, GroupsOf(comps), after, aliases, moved, like) && id in comps
    ensures PlacedOne(comps, GroupsOf(comps), after, moved, like, id)
  {
    var keys := GroupsOf(comps);
    PlainWellFormed(comps, id);
    if id in moved {
      assert MovedRight(comps, keys, after, moved, like, id);
      assert id in Members(keys, keys[id]) && like[id] in Members(keys, keys[id]);
      assert MovedRight(comps, keys, after, moved, like, like[id]);
    } else {
      assert StayedRight(comps, keys, after, id);
      LeqTotal(id.name, id.name);
    }
  }

  lemma PlacedIsFilled(comps: Comps, keys: Groups, after: Comps, moved: map<CompId, CompId>, like: map<CompId, CompId>,
                       slot: CompId)
    requires Filled(comps) && comps.Keys == keys.Keys && slot in after && Inhabited(keys, moved, slot)
    requires forall id {:trigger PlacedOne(comps, keys, after, moved, like, id)} | id in comps ::
               PlacedOne(comps, keys, after, moved, like, id)
    ensures after[slot].node.Some?
  {
    var id :| id in keys && Home(moved, id) == slot;
    assert PlacedOne(comps, keys, after, moved, like, id);
    assert comps[StandIn(moved, like, id)].node.Some?;
  }

  lemma CollapsedIsPlaced(comps: Comps, after: Comps, aliases: map<string, string>,
                          moved: map<CompId, CompId>, like: map<CompId, CompId>)
    requires Filled(comps) && Collapsed(comps, GroupsOf(comps), after, aliases, moved, like)
    ensures Placed(comps, GroupsOf(comps), after, aliases, moved, like)
  {
    var keys := GroupsOf(comps);
    forall id | id in comps ensures PlacedOne(comps, keys, after, moved, like, id) {
      CollapsedPlacesOne(comps, after, aliases, moved, like, id);
    }
    forall slot | slot in after ensures after[slot].node.Some? {
      assert Inhabited(keys, moved, slot);
      PlacedIsFilled(comps, keys, after, moved, like, slot);
    }
  }

  /** With dedupe off every component stays. */
  lemma NothingMoved(comps: Comps)
    requires Filled(comps)
    ensures Placed(comps, GroupsOf(comps), comps, map[], map[], map[])
    ensures Aliased(comps, map[]) == DocOf(comps)
  {
    forall id | id in comps
      ensures PlacedOne(comps, GroupsOf(comps), comps, map[], map[], id) && Inhabited(GroupsOf(comps), map[], id)
      ensures Rewrite(comps[id].node.value, map[]) == comps[id].node.value
    {
      assert comps[id].node.Some? && Home(map[], id) == id;
      LeqTotal(id.name, id.name);
      RewriteNothing(comps[id].node.value);
    }
  }

  // ---- what a pass does to meaning ----

  /** The components with every alias applied. */
  function Aliased(after: Comps, aliases: map<string, string>): Doc
    requires AllFilled(after)
  {
    map slot | slot in after :: Rewrite(after[slot].node.value, aliases)
  }

  /** A reference as the merger prints it, to a component it holds. */
  predicate Printed(keys: set<CompId>, r: string) {
    && ParseLocalRef(r).Some?
    && ParseLocalRef(r).value.id in keys
    && r == RefText(ParseLocalRef(r).value.id, ParseLocalRef(r).value.tail)
  }

  /** A reference that redirecting whole-component references leaves intact: it names a whole
      component, or a place inside one that did not move. */
  predicate Survives(moved: map<CompId, CompId>, r: string)
    requires ParseLocalRef(r).Some?
  {
    ParseLocalRef(r).value.tail == "" || ParseLocalRef(r).value.id !in moved
  }

  predicate NodeSurvives(comps: Comps, moved: map<CompId, CompId>, n: Node) {
    forall r | r in Refs(n) :: Printed(comps.Keys, r) && Survives(moved, r)
  }

  /** The nodes that stand for something keep their references. */
  predicate StandInsSurvive(comps: Comps, moved: map<CompId, CompId>, like: map<CompId, CompId>)
    requires Filled(comps)
  {
    forall id {:trigger StandIn(moved, like, id)} | id in comps && StandIn(moved, like, id) in comps ::
      NodeSurvives(comps, moved, DocOf(comps)[StandIn(moved, like, id)])
  }

  function Homes(comps: Comps, moved: map<CompId, CompId>): map<CompId, CompId> {
    map id | id in comps :: Home(moved, id)
  }

  function Everywhere(comps: Comps, aliases: map<string, string>): Renames {
    map id | id in comps :: aliases
  }

  function StandIns(comps: Comps, moved: map<CompId, CompId>, like: map<CompId, CompId>): map<CompId, CompId> {
    map id | id in comps :: StandIn(moved, like, id)
  }

  /** Where redirecting sends a reference: to the home of a whole component; a place inside
      one is sought in the slot that component had before. */
  function Sent(moved: map<CompId, CompId>, ref: Ref): Ref {
    if ref.tail == "" then Ref(Home(moved, ref.id), "") else ref
  }

  lemma RenamedByAliases(aliases: map<string, string>, moved: map<CompId, CompId>, keys: set<CompId>, r: string)
    requires AliasesOf(aliases, moved) && moved.Keys <= keys && forall id | id in keys :: WellFormed(id)
    requires Printed(keys, r)
    ensures var ref := ParseLocalRef(r).value;
            Renamed(aliases, r) == RefText(Sent(moved, ref).id, ref.tail)
  {
    var ref := ParseLocalRef(r).value;
    if r in aliases {
      assert Redirected(moved, r);
      var x :| x in moved && r == ComponentRef(x);
      RefTextInjective(x, "", ref.id, ref.tail);
    } else {
      assert ref.tail == "" ==> r == ComponentRef(ref.id);
    }
  }

  lemma SentBy(comps: Comps, keys: Groups, after: Comps, aliases: map<string, string>,
               moved: map<CompId, CompId>, like: map<CompId, CompId>, r: string)
    requires Placed(comps, keys, after, aliases, moved, like) && Printed(comps.Keys, r)
    ensures ParseLocalRef(Renamed(aliases, r)) == Some(Sent(moved, ParseLocalRef(r).value))
  {
    var ref := ParseLocalRef(r).value;
    forall id | id in comps ensures WellFormed(id) && WellFormed(Home(moved, id)) {
      assert PlacedOne(comps, keys, after, moved, like, id);
    }
    RenamedByAliases(aliases, moved, comps.Keys, r);
    ParseRefText(Sent(moved, ref).id, ref.tail);
  }

  lemma StandInAlike(comps: Comps, x: CompId, id: CompId)
    requires Filled(comps) && x in comps && id in comps && GroupsOf(comps)[x] == GroupsOf(comps)[id]
    ensures Alike(DocOf(comps), x, id)
  {
    EqualPrintsAlike(DocOf(comps), x, id);
  }

  lemma PlacedCarries(comps: Comps, after: Comps, aliases: map<string, string>,
                      moved: map<CompId, CompId>, like: map<CompId, CompId>)
    requires Filled(comps) && Placed(comps, GroupsOf(comps), after, aliases, moved, like)
    requires StandInsSurvive(comps, moved, like)
    ensures Carries(DocOf(comps), Aliased(after, aliases), Everywhere(comps, aliases), Homes(comps, moved),
            StandIns(comps, moved, like))
  {
    forall id | id in comps
      ensures CarriesOne(DocOf(comps), Aliased(after, aliases), Everywhere(comps, aliases),
                         Homes(comps, moved), StandIns(comps, moved, like), id)
    {
      assert PlacedOne(comps, GroupsOf(comps), after, moved, like, id);
      StandInAlike(comps, StandIn(moved, like, id), id);
      SurvivorsFollow(comps, GroupsOf(comps), after, aliases, moved, like, comps[StandIn(moved, like, id)].node.value);
    }
  }

  lemma SurvivorsFollow(comps: Comps, keys: Groups, after: Comps, aliases: map<string, string>,
                        moved: map<CompId, CompId>, like: map<CompId, CompId>, n: Node)
    requires Placed(comps, keys, after, aliases, moved, like)
    requires NodeSurvives(comps, moved, n)
    ensures RefsFollow(n, aliases, Homes(comps, moved))
  {
    forall r | r in Refs(n) ensures RefFollows(r, aliases, Homes(comps, moved)) {
      SentBy(comps, keys, after, aliases, moved, like, r);
    }
  }

  /** A pass is sound: where every reference that is kept is whole or to an unmoved component,
      collapsing and redirecting leave the unfolding of every node as it was, cyclic components
      included. */
  lemma DedupeKeepsMeaning(comps: Comps, after: Comps, aliases: map<string, string>,
                           moved: map<CompId, CompId>, like: map<CompId, CompId>, n: Node, depth: nat)
    requires Filled(comps) && Placed(comps, GroupsOf(comps), after, aliases, moved, like)
    requires StandInsSurvive(comps, moved, like) && NodeSurvives(comps, moved, n)
    ensures Unfold(Aliased(after, aliases), Rewrite(n, aliases), depth) == Unfold(DocOf(comps), n, depth)
  {
    PlacedCarries(comps, after, aliases, moved, like);
    SurvivorsFollow(comps, GroupsOf(comps), after, aliases, moved, like, n);
    MovedUnfoldsAlike(DocOf(comps), Aliased(after, aliases), Everywhere(comps, aliases), Homes(comps, moved),
                      StandIns(comps, moved, like), n, aliases, depth);
  }

  /** Which published slots are still occupied. */
  lemma OccupiedAfter(comps: Comps, keys: Groups, after: Comps, aliases: map<string, string>,
                      moved: map<CompId, CompId>, like: map<CompId, CompId>, id: CompId)
    requires Placed(comps, keys, after, aliases, moved, like) && id in comps
    ensures Home(moved, id) in after
    ensures id in after <==> id !in moved || id in moved.Values
  {
    assert PlacedOne(comps, keys, after, moved, like, id);
    if id in after {
      assert Inhabited(keys, moved, id);
      var x :| x in keys && Home(moved, x) == id;
      assert x in moved ==> moved[x] in moved.Values;
    }
    if id in moved.Values {
      var x :| x in moved && moved[x] == id;
      assert PlacedOne(comps, keys, after, moved, like, x);
    }
  }

  /** When a reference still resolves after a pass: exactly when it survives, or another
      group took over the slot it names. A reference into the middle of a collapsed component
      is left as it was and otherwise dangles. */
  lemma ResolvesAfterDedupe(comps: Comps, keys: Groups, after: Comps, aliases: map<string, string>,
                            moved: map<CompId, CompId>, like: map<CompId, CompId>, r: string)
    requires Placed(comps, keys, after, aliases, moved, like) && Printed(comps.Keys, r)
    ensures var ref := ParseLocalRef(Renamed(aliases, r));
            ref.Some? && (ref.value.id in after <==> Survives(moved, r) || ParseLocalRef(r).value.id in moved.Values)
  {
    SentBy(comps, keys, after, aliases, moved, like, r);
    OccupiedAfter(comps, keys, after, aliases, moved, like, ParseLocalRef(r).value.id);
  }

  /** Plain names nobody holds and no two base names share. */
  predicate PlainNamesFree(comps: Comps) {
    forall x, y | x in comps && y in comps ::
      && CompId(x.section, Capitalise(comps[x].baseName)) !in comps
      && (x.section == y.section && Capitalise(comps[x].baseName) == Capitalise(comps[y].baseName)
          ==> comps[x].baseName == comps[y].baseName)
  }

  lemma MovedToPlain(comps: Comps, after: Comps, aliases: map<string, string>,
                     moved: map<CompId, CompId>, like: map<CompId, CompId>, x: CompId)
    requires Filled(comps) && Collapsed(comps, GroupsOf(comps), after, aliases, moved, like)
    requires PlainNamesFree(comps) && x in moved
    ensures moved[x] == Plain(GroupOf(comps, x)) && moved[x] !in comps
    ensures forall y | y in comps && y.section == x.section && comps[y].baseName == comps[x].baseName :: y in moved
  {
    var keys := GroupsOf(comps);
    assert MovedRight(comps, keys, after, moved, like, x);
    forall y | y in comps && y.section == x.section && comps[y].baseName == comps[x].baseName
      ensures y in Members(keys, keys[x])
    {
      assert keys[y].section == keys[x].section && keys[y].base == keys[x].base;
    }
  }

  lemma PlainTakenByOwn(comps: Comps, after: Comps, aliases: map<string, string>,
                        moved: map<CompId, CompId>, like: map<CompId, CompId>, id: CompId)
    requires Filled(comps) && Collapsed(comps, GroupsOf(comps), after, aliases, moved, like)
    requires PlainNamesFree(comps) && id in comps
    ensures Plain(GroupOf(comps, id)) in after ==> id in moved
  {
    var plain := Plain(GroupOf(comps, id));
    if plain in after {
      assert Inhabited(GroupsOf(comps), moved, plain);
      var x :| x in comps && Home(moved, x) == plain;
      MovedToPlain(comps, after, aliases, moved, like, x);
    }
  }

  /** Which components collapse, known before the pass: those that share base name and
      structure with another and whose base name is uncontested. The order of the groups
      then makes no difference, and no freed slot is taken again. */
  lemma CollapsesExactly(comps: Comps, after: Comps, aliases: map<string, string>,
                         moved: map<CompId, CompId>, like: map<CompId, CompId>, id: CompId)
    requires Filled(comps) && Collapsed(comps, GroupsOf(comps), after, aliases, moved, like)
    requires PlainNamesFree(comps) && id in comps
    ensures id in moved <==> |Members(GroupsOf(comps), GroupOf(comps, id))| >= 2
                             && !Contested(GroupsOf(comps), GroupOf(comps, id))
    ensures id !in moved.Values
  {
    var keys := GroupsOf(comps);
    PlainTakenByOwn(comps, after, aliases, moved, like, id);
    if id in moved {
      assert MovedRight(comps, keys, after, moved, like, id);
    } else {
      assert StayedRight(comps, keys, after, id);
    }
    forall x | x in moved ensures moved[x] !in comps {
      MovedToPlain(comps, after, aliases, moved, like, x);
    }
  }

  /** Where such a component ends up. */
  lemma CollapsesOnto(comps: Comps, after: Comps, aliases: map<string, string>,
                      moved: map<CompId, CompId>, like: map<CompId, CompId>, id: CompId)
    requires Filled(comps) && Collapsed(comps, GroupsOf(comps), after, aliases, moved, like)
    requires PlainNamesFree(comps) && id in comps
    ensures var g := GroupsOf(comps)[id];
      && (Home(moved, id) != id <==> |Members(GroupsOf(comps), g)| >= 2 && !Contested(GroupsOf(comps), g))
      && (Home(moved, id) != id ==> Home(moved, id) == Plain(g))
  {
    CollapsesExactly(comps, after, aliases, moved, like, id);
    if id in moved {
      MovedToPlain(comps, after, aliases, moved, like, id);
    }
  }

  /** A reference into the middle of a component survives dedupe exactly when that component
      is alone in its structure and base name, or shares the base name with another structure. */
  lemma TailResolvesExactly(comps: Comps, after: Comps, aliases: map<string, string>,
                            moved: map<CompId, CompId>, like: map<CompId, CompId>, r: string)
    requires Filled(comps) && Collapsed(comps, GroupsOf(comps), after, aliases, moved, like)
    requires PlainNamesFree(comps) && Printed(comps.Keys, r) && ParseLocalRef(r).value.tail != ""
    ensures var id := ParseLocalRef(r).value.id;
      && ParseLocalRef(Renamed(aliases, r)).Some?
      && (ParseLocalRef(Renamed(aliases, r)).value.id in after <==>
            |Members(GroupsOf(comps), GroupOf(comps, id))| < 2 || Contested(GroupsOf(comps), GroupOf(comps, id)))
  {
    CollapsedIsPlaced(comps, after, aliases, moved, like);
    ResolvesAfterDedupe(comps, GroupsOf(comps), after, aliases, moved, like, r);
    CollapsesExactly(comps, after, aliases, moved, like, ParseLocalRef(r).value.id);
  }
}
