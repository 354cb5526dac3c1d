/** Importing: copying exposed operations and the components they reach, under published
    names that never clash, with every `$ref` repointed. Node trees are values here, so
    the source's deep copies are the identity. */
module Merger {
  import opened Wrappers
  import opened Text
  import opened JsonPointer
  import opened Nodes
  import opened Meaning
  import opened Operations

  /** The loaded documents, by the spec they come from. */
  type Specs = map<SpecId, Doc>

  datatype Key = Key(spec: SpecId, id: CompId)

  datatype Imported = Imported(node: Option<Node>, baseName: string, key: Key)

  datatype Error =
    | Collision(verb: string, path: string, first: string, second: string)
    | UnsupportedRef(ref: string)
    | DanglingRef(backend: string, id: CompId)
    | ParamsNotSequence

  // ---- references across a spec ----

  predicate Known(specs: Specs, k: Key) {
    k.spec in specs && k.id in specs[k.spec]
  }

  function NodeOf(specs: Specs, k: Key): Node
    requires Known(specs, k)
  {
    specs[k.spec][k.id]
  }

  predicate Parses(n: Node) {
    forall r | r in Refs(n) :: ParseLocalRef(r).Some?
  }

  /** The components a node of `spec` names. */
  function Targets(spec: SpecId, n: Node): set<Key> {
    TargetsIn(spec, Refs(n))
  }

  function TargetsIn(spec: SpecId, refs: seq<string>): set<Key> {
    set r | r in refs && ParseLocalRef(r).Some? :: Key(spec, ParseLocalRef(r).value.id)
  }

  /** What a node needs of its spec to be copied: local references to components it has. */
  predicate RefsGood(specs: Specs, spec: SpecId, n: Node) {
    spec in specs && forall r | r in Refs(n) :: RefGood(specs[spec], r)
  }

  predicate RefGood(doc: Doc, r: string) {
    ParseLocalRef(r).Some? && ParseLocalRef(r).value.id in doc
  }

  predicate RefersTo(specs: Specs, k: Key, target: Key) {
    Known(specs, k) && target in Targets(k.spec, NodeOf(specs, k))
  }

  predicate IsPath(specs: Specs, roots: set<Key>, path: seq<Key>) {
    && |path| > 0 && path[0] in roots
    && forall i | 0 < i < |path| :: RefersTo(specs, path[i - 1], path[i])
  }

  /** Reachable by following references from the roots: the reference definition the
      worklist is measured against. */
  ghost predicate Reachable(specs: Specs, roots: set<Key>, k: Key) {
    exists path :: IsPath(specs, roots, path) && path[|path| - 1] == k
  }

  ghost predicate AllReachable(specs: Specs, roots: set<Key>, keys: set<Key>) {
    forall k {:trigger Reachable(specs, roots, k)} | k in keys :: Reachable(specs, roots, k)
  }

  /** `keys` is the reachable set, neither more nor less. */
  ghost predicate ExactlyReachable(specs: Specs, roots: set<Key>, keys: set<Key>) {
    forall k {:trigger Reachable(specs, roots, k)} :: k in keys <==> Reachable(specs, roots, k)
  }

  lemma RootsReachable(specs: Specs, roots: set<Key>)
    ensures AllReachable(specs, roots, roots)
  {
    forall k | k in roots ensures Reachable(specs, roots, k) {
      assert IsPath(specs, roots, [k]);
    }
  }

  lemma StepReachable(specs: Specs, roots: set<Key>, k: Key, target: Key)
    requires Reachable(specs, roots, k) && RefersTo(specs, k, target)
    ensures Reachable(specs, roots, target)
  {
    var path :| IsPath(specs, roots, path) && path[|path| - 1] == k;
    var longer := path + [target];
    assert IsPath(specs, roots, longer);
    assert longer[|longer| - 1] == target;
  }

  /** A set closed under references holds everything reachable from inside it. */
  lemma {:induction false} ClosedHoldsPath(specs: Specs, roots: set<Key>, held: set<Key>, path: seq<Key>)
    requires roots <= held && IsPath(specs, roots, path)
    requires forall k, t | k in held && RefersTo(specs, k, t) :: t in held
    ensures path[|path| - 1] in held
    decreases |path|
  {
    if |path| > 1 {
      var shorter := path[..|path| - 1];
      assert IsPath(specs, roots, shorter);
      ClosedHoldsPath(specs, roots, held, shorter);
      assert RefersTo(specs, path[|path| - 2], path[|path| - 1]);
    }
  }

  // ---- published names and references ----

  /** The n-th name tried for a component: plain first, then with a numeric suffix. */
  function Candidate(namespace: string, name: string, n: nat): string
    requires n >= 1
  {
    namespace + Capitalise(name) + (if n == 1 then "" else Itoa(n))
  }

  lemma CandidatesDiffer(namespace: string, name: string, m: nat, n: nat)
    requires 1 <= m && 1 <= n && Candidate(namespace, name, m) == Candidate(namespace, name, n)
    ensures m == n
  {
    var base := namespace + Capitalise(name);
    assert Candidate(namespace, name, m)[|base|..] == (if m == 1 then "" else Itoa(m));
    assert Candidate(namespace, name, n)[|base|..] == (if n == 1 then "" else Itoa(n));
    if m != 1 && n != 1 {
      ItoaInjective(m, n);
    }
  }

  function SlotOf(imported: map<Key, string>, k: Key): CompId
    requires k in imported
  {
    CompId(k.id.section, imported[k])
  }

  /** `resolveRef`'s output once the component has a published name. */
  function PublishedRef(imported: map<Key, string>, spec: SpecId, ref: string): string {
    match ParseLocalRef(ref)
    case None => ref
    case Some(r) =>
      var k := Key(spec, r.id);
      if k in imported then RefText(SlotOf(imported, k), r.tail) else ref
  }

  function PublishMap(imported: map<Key, string>, spec: SpecId, refs: seq<string>): map<string, string> {
    map r | r in refs :: PublishedRef(imported, spec, r)
  }

  /** A node of `spec` with every reference repointed at its published component. */
  function Publish(imported: map<Key, string>, spec: SpecId, n: Node): Node {
    Rewrite(n, PublishMap(imported, spec, Refs(n)))
  }

  predicate RefsImported(imported: map<Key, string>, spec: SpecId, n: Node) {
    Parses(n) && Targets(spec, n) <= imported.Keys
  }

  lemma TargetOf(spec: SpecId, n: Node, r: string)
    requires r in Refs(n) && ParseLocalRef(r).Some?
    ensures Key(spec, ParseLocalRef(r).value.id) in Targets(spec, n)
  {
  }

  /** What has been published stays published as more is imported. */
  lemma PublishStable(before: map<Key, string>, after: map<Key, string>, spec: SpecId, n: Node)
    requires RefsImported(before, spec, n)
    requires before.Keys <= after.Keys && forall k | k in before :: after[k] == before[k]
    ensures RefsImported(after, spec, n) && Publish(after, spec, n) == Publish(before, spec, n)
  {
    forall r | r in Refs(n)
      ensures PublishedRef(before, spec, r) == PublishedRef(after, spec, r)
    {
      TargetOf(spec, n, r);
    }
    RewriteAgrees(n, PublishMap(after, spec, Refs(n)), PublishMap(before, spec, Refs(n)));
  }

  lemma TakePush<T>(s: seq<T>, i: nat)
    requires i < |s|
    ensures s[..i + 1] == s[..i] + [s[i]]
    ensures forall x :: x in s[..i + 1] <==> x in s[..i] || x == s[i]
  {
  }

  lemma TargetsPush(spec: SpecId, refs: seq<string>, i: nat)
    requires i < |refs| && ParseLocalRef(refs[i]).Some?
    ensures refs[..i + 1] == refs[..i] + [refs[i]]
    ensures TargetsIn(spec, refs[..i + 1]) == TargetsIn(spec, refs[..i]) + {Key(spec, ParseLocalRef(refs[i]).value.id)}
  {
    TakePush(refs, i);
    TargetsMore(spec, refs[..i], refs[i], refs[..i + 1]);
  }

  lemma TargetsMore(spec: SpecId, refs: seq<string>, ref: string, more: seq<string>)
    requires ParseLocalRef(ref).Some? && forall x :: x in more <==> x in refs || x == ref
    ensures TargetsIn(spec, more) == TargetsIn(spec, refs) + {Key(spec, ParseLocalRef(ref).value.id)}
  {
  }

  lemma PublishMapPush(imported: map<Key, string>, spec: SpecId, refs: seq<string>, i: nat)
    requires i < |refs|
    ensures PublishMap(imported, spec, refs[..i + 1]) ==
            PublishMap(imported, spec, refs[..i])[refs[i] := PublishedRef(imported, spec, refs[i])]
  {
    assert refs[..i + 1] == refs[..i] + [refs[i]];
    assert forall r :: r in refs[..i + 1] <==> r in refs[..i] || r == refs[i];
  }

  lemma PublishMapStable(before: map<Key, string>, after: map<Key, string>, spec: SpecId, refs: seq<string>)
    requires TargetsIn(spec, refs) <= before.Keys <= after.Keys
    requires forall k | k in before :: after[k] == before[k]
    ensures PublishMap(after, spec, refs) == PublishMap(before, spec, refs)
  {
    forall r | r in refs
      ensures PublishedRef(before, spec, r) == PublishedRef(after, spec, r)
    {
      if ParseLocalRef(r).Some? {
        assert Key(spec, ParseLocalRef(r).value.id) in TargetsIn(spec, refs);
      }
    }
  }

  // ---- the merger's state ----

  datatype State = State(imported: map<Key, string>, comps: map<CompId, Imported>, queue: seq<Key>)

  /** An imported key is a real component and owns the slot it was given. */
  predicate KeyHeld(specs: Specs, s: State, k: Key) {
    && k in s.imported && Known(specs, k) && WellFormed(k.id) && s.imported[k] != ""
    && SlotOf(s.imported, k) in s.comps && s.comps[SlotOf(s.imported, k)].key == k
  }

  /** A slot belongs to the key that owns it; once filled, it holds the published form of
      that component, references and all. */
  predicate SlotHeld(specs: Specs, s: State, slot: CompId) {
    && slot in s.comps
    && s.comps[slot].key in s.imported && SlotOf(s.imported, s.comps[slot].key) == slot
    && s.comps[slot].baseName == s.comps[slot].key.id.name
    && (s.comps[slot].node.Some? ==> HoldsCopy(specs, s.imported, s.comps[slot].key, s.comps[slot].node.value))
  }

  predicate HoldsCopy(specs: Specs, imported: map<Key, string>, k: Key, n: Node) {
    && Known(specs, k)
    && RefsImported(imported, k.spec, NodeOf(specs, k))
    && n == Publish(imported, k.spec, NodeOf(specs, k))
  }

  /** Keys and slots are in bijection and every copy made so far is right. */
  predicate Consistent(specs: Specs, s: State) {
    && (forall k {:trigger KeyHeld(specs, s, k)} | k in s.imported :: KeyHeld(specs, s, k))
    && (forall slot {:trigger SlotHeld(specs, s, slot)} | slot in s.comps :: SlotHeld(specs, s, slot))
    && (forall k | k in s.queue :: k in s.imported)
  }

  predicate QueuedFrom(queue: seq<Key>, i: nat, k: Key) {
    exists j :: i <= j < |queue| && queue[j] == k
  }

  /** `t` is `s` with the components `more` imported as well, empty and queued. */
  predicate Grown(s: State, t: State, more: set<Key>) {
    && Retains(s, t)
    && t.imported.Keys == s.imported.Keys + more
    && (forall slot | slot in t.comps && slot !in s.comps :: t.comps[slot].node.None?)
    && (forall k {:trigger QueuedFrom(t.queue, |s.queue|, k)} | k in more && k !in s.imported ::
          QueuedFrom(t.queue, |s.queue|, k))
    && (more <= s.imported.Keys ==> t == s)
  }

  predicate Retains(s: State, t: State) {
    && s.imported.Keys <= t.imported.Keys && s.comps.Keys <= t.comps.Keys && s.queue <= t.queue
    && (forall k | k in s.imported :: t.imported[k] == s.imported[k])
    && (forall slot | slot in s.comps :: t.comps[slot] == s.comps[slot])
  }

  /** Every slot still empty is waiting at or after position `i`. */
  predicate AwaitedFrom(s: State, i: nat) {
    forall slot {:trigger QueuedFrom(s.queue, i, s.comps[slot].key)} | slot in s.comps && s.comps[slot].node.None? ::
      QueuedFrom(s.queue, i, s.comps[slot].key)
  }

  /** Published names are never taken back. */
  predicate NamesKept(before: map<Key, string>, after: map<Key, string>) {
    before.Keys <= after.Keys && forall k {:trigger before[k]} {:trigger after[k]} | k in before ::
      after[k] == before[k]
  }

  lemma NamesKeptTrans(a: map<Key, string>, b: map<Key, string>, c: map<Key, string>)
    requires NamesKept(a, b) && NamesKept(b, c)
    ensures NamesKept(a, c)
  {
    forall k | k in a ensures c[k] == a[k] {
      assert b[k] == a[k];
    }
  }

  lemma GrownNone(s: State, k: Key)
    requires k in s.imported
    ensures Grown(s, s, {k})
  {
    assert s.imported.Keys + {k} == s.imported.Keys;
  }

  lemma GrownTrans(s: State, t: State, u: State, a: set<Key>, b: set<Key>)
    requires Grown(s, t, a) && Grown(t, u, b)
    ensures Grown(s, u, a + b)
  {
    assert Retains(s, u);
    forall k | k in a + b && k !in s.imported
      ensures QueuedFrom(u.queue, |s.queue|, k)
    {
      if k in t.imported {
        assert QueuedFrom(t.queue, |s.queue|, k);
        var j :| |s.queue| <= j < |t.queue| && t.queue[j] == k;
        assert u.queue[j] == k;
      } else {
        assert QueuedFrom(u.queue, |t.queue|, k);
      }
    }
  }

  /** `published` is the first candidate name for `id` that no slot of its section holds. */
  ghost predicate IsFirstFree(comps: map<CompId, Imported>, namespace: string, id: CompId, published: string) {
    exists n :: IsNthFree(comps, namespace, id, published, n)
  }

  ghost predicate IsNthFree(comps: map<CompId, Imported>, namespace: string, id: CompId, published: string, n: nat) {
    && IsNth(comps.Keys, namespace, id, published, n)
    && CompId(id.section, published) !in comps
  }

  /** `published` is the n-th candidate for `id`, and every earlier one is taken. */
  ghost predicate IsNth(taken: set<CompId>, namespace: string, id: CompId, published: string, n: nat) {
    && 1 <= n && published == Candidate(namespace, id.name, n)
    && forall m | 1 <= m < n :: CompId(id.section, Candidate(namespace, id.name, m)) in taken
  }

  /** The name of an imported component comes from the namespace of a source of its spec. */
  ghost predicate NamedAfter(introduced: set<Source>, taken: set<CompId>, k: Key, published: string) {
    exists src, n :: src in introduced && src.spec == k.spec && IsNth(taken, src.namespace, k.id, published, n)
  }

  ghost predicate AllNamed(introduced: set<Source>, s: State) {
    forall k {:trigger NamedAfter(introduced, s.comps.Keys, k, s.imported[k])} | k in s.imported ::
      NamedAfter(introduced, s.comps.Keys, k, s.imported[k])
  }

  /** Names stay accounted for as more sources come in and more slots are taken. */
  lemma NamedMore(introduced: set<Source>, more: set<Source>, s: State, t: State)
    requires AllNamed(introduced, s) && introduced <= more
    requires s.imported == t.imported && s.comps.Keys <= t.comps.Keys
    ensures AllNamed(more, t)
  {
    forall k | k in t.imported ensures NamedAfter(more, t.comps.Keys, k, t.imported[k]) {
      assert NamedAfter(introduced, s.comps.Keys, k, s.imported[k]);
      var src, n :| src in introduced && src.spec == k.spec
        && IsNth(s.comps.Keys, src.namespace, k.id, s.imported[k], n);
      assert IsNth(t.comps.Keys, src.namespace, k.id, s.imported[k], n);
    }
  }

  lemma NamedPush(introduced: set<Source>, src: Source, s: State, t: State, key: Key)
    requires AllNamed(introduced, s) && src.spec == key.spec
    requires Reserved(s, t, key) && IsFirstFree(s.comps, src.namespace, key.id, t.imported[key])
    ensures AllNamed(introduced + {src}, t)
  {
    NamedMore(introduced, introduced + {src}, s, s.(comps := t.comps));
    var n :| IsNthFree(s.comps, src.namespace, key.id, t.imported[key], n);
    forall k | k in t.imported ensures NamedAfter(introduced + {src}, t.comps.Keys, k, t.imported[k]) {
      if k == key {
        assert IsNth(t.comps.Keys, src.namespace, k.id, t.imported[k], n);
      } else {
        assert NamedAfter(introduced + {src}, t.comps.Keys, k, s.imported[k]);
      }
    }
  }

  /** The disambiguation loop. It ends because the names it tries are all different and
      only finitely many are taken. */
  method FirstFree(comps: map<CompId, Imported>, namespace: string, id: CompId) returns (published: string)
    requires id.name != ""
    ensures published != "" && IsFirstFree(comps, namespace, id, published)
  {
    published := namespace + Capitalise(id.name);
    var n := 2;
    ghost var tried: set<CompId> := {};
    while CompId(id.section, published) in comps
      invariant n >= 2 && published == Candidate(namespace, id.name, n - 1)
      invariant tried == Tried(namespace, id, n - 1) && tried <= comps.Keys
      decreases |comps.Keys - tried|
    {
      TriedPush(namespace, id, n - 1);
      assert comps.Keys - Tried(namespace, id, n) == (comps.Keys - tried) - {CompId(id.section, published)};
      tried := Tried(namespace, id, n);
      published := namespace + Capitalise(id.name) + Itoa(n);
      n := n + 1;
    }
    forall m | 1 <= m < n - 1 ensures CompId(id.section, Candidate(namespace, id.name, m)) in comps {
      assert CompId(id.section, Candidate(namespace, id.name, m)) in Tried(namespace, id, n - 1);
    }
    assert IsNthFree(comps, namespace, id, published, n - 1);
  }

  /** The slots of the candidates before the n-th. */
  function Tried(namespace: string, id: CompId, n: nat): set<CompId>
    requires n >= 1
  {
    set m | 1 <= m < n :: CompId(id.section, Candidate(namespace, id.name, m))
  }

  lemma TriedPush(namespace: string, id: CompId, n: nat)
    requires n >= 1
    ensures Tried(namespace, id, n + 1) == Tried(namespace, id, n)
            + {CompId(id.section, Candidate(namespace, id.name, n))}
    ensures CompId(id.section, Candidate(namespace, id.name, n)) !in Tried(namespace, id, n)
  {
    forall m | 1 <= m < n ensures Candidate(namespace, id.name, m) != Candidate(namespace, id.name, n) {
      if Candidate(namespace, id.name, m) == Candidate(namespace, id.name, n) {
        CandidatesDiffer(namespace, id.name, m, n);
      }
    }
  }

  /** The walk over a node's references after `i` of them. */
  predicate WalkedTo(specs: Specs, spec: SpecId, s: State, t: State, refs: seq<string>, i: nat,
                     rename: map<string, string>)
  {
    && i <= |refs| && spec in specs
    && Grown(s, t, TargetsIn(spec, refs[..i]))
    && (forall j {:trigger RefGood(specs[spec], refs[j])} | 0 <= j < i :: RefGood(specs[spec], refs[j]))
    && rename == PublishMap(t.imported, spec, refs[..i])
  }

  lemma WalkStep(specs: Specs, spec: SpecId, s: State, t: State, u: State, refs: seq<string>, i: nat,
                 rename: map<string, string>)
    requires WalkedTo(specs, spec, s, t, refs, i, rename)
    requires i < |refs| && RefGood(specs[spec], refs[i])
    requires Grown(t, u, {Key(spec, ParseLocalRef(refs[i]).value.id)})
    ensures WalkedTo(specs, spec, s, u, refs, i + 1, rename[refs[i] := PublishedRef(u.imported, spec, refs[i])])
  {
    TargetsPush(spec, refs, i);
    GrownTrans(s, t, u, TargetsIn(spec, refs[..i]), {Key(spec, ParseLocalRef(refs[i]).value.id)});
    PublishMapStable(t.imported, u.imported, spec, refs[..i]);
    PublishMapPush(u.imported, spec, refs, i);
  }

  lemma WalkDone(specs: Specs, spec: SpecId, s: State, t: State, n: Node, rename: map<string, string>)
    requires WalkedTo(specs, spec, s, t, Refs(n), |Refs(n)|, rename)
    ensures RefsGood(specs, spec, n) && Grown(s, t, Targets(spec, n))
    ensures RefsImported(t.imported, spec, n) && Rewrite(n, rename) == Publish(t.imported, spec, n)
  {
    var refs := Refs(n);
    assert refs[..|refs|] == refs;
    forall r | r in refs ensures RefGood(specs[spec], r) {
      var j :| 0 <= j < |refs| && refs[j] == r;
      assert RefGood(specs[spec], refs[j]);
    }
  }

  class Merger {
    const specs: Specs
    var imported: map<Key, string>
    var comps: map<CompId, Imported>
    var queue: seq<Key>
    var sources: map<SpecId, Source>
    ghost var introduced: set<Source>

    ghost function View(): State
      reads this
    {
      State(imported, comps, queue)
    }

    ghost predicate Valid()
      reads this
    {
      && Consistent(specs, View())
      && (forall k | k in imported :: k.spec in sources)
      && (forall spec | spec in sources :: sources[spec].spec == spec && sources[spec] in introduced)
      && AllNamed(introduced, View())
    }

    constructor (specs: Specs)
      ensures this.specs == specs && Valid()
      ensures View() == State(map[], map[], []) && sources == map[] && introduced == {}
    {
      this.specs := specs;
      imported, comps, queue, sources, introduced := map[], map[], [], map[], {};
    }

    /** The first source of a spec gives the namespace of what is found later. */
    method Remember(src: Source)
      requires Valid()
      modifies this`sources, this`introduced
      ensures Valid()
      ensures src.spec in sources
      ensures sources == if src.spec in old(sources) then old(sources) else old(sources)[src.spec := src]
      ensures introduced == old(introduced) + {src}
    {
      NamedMore(introduced, introduced + {src}, View(), View());
      introduced := introduced + {src};
      if src.spec !in sources {
        sources := sources[src.spec := src];
      }
    }

    method Reserve(src: Source, key: Key) returns (published: string)
      requires Valid() && Known(specs, key) && WellFormed(key.id) && key !in imported
      requires src in introduced && src.spec == key.spec && key.spec in sources
      modifies this`imported, this`comps, this`queue
      ensures Valid() && Grown(old(View()), View(), {key}) && key in imported && imported[key] == published
      ensures queue == old(queue) + [key]
      ensures comps == old(comps)[CompId(key.id.section, published) := Imported(None, key.id.name, key)]
      ensures IsFirstFree(old(comps), src.namespace, key.id, published)
    {
      published := FirstFree(comps, src.namespace, key.id);
      ghost var before := View();
      imported := imported[key := published];
      comps := comps[CompId(key.id.section, published) := Imported(None, key.id.name, key)];
      queue := queue + [key];
      ImportKeepsConsistent(specs, before, View(), key);
      NamedPush(introduced, src, before, View(), key);
      assert introduced + {src} == introduced;
    }

    /** Reserves the first free name for a component and queues it for copying. A component
        already imported keeps its name. Fails exactly when the spec has no such component,
        and then reserves nothing. */
    method Enqueue(src: Source, id: CompId) returns (r: Result<string, Error>)
      requires Valid() && src.spec in specs && WellFormed(id)
      modifies this
      ensures Valid()
      ensures r.Ok? <==> id in specs[src.spec]
      ensures r.Err? ==> View() == old(View()) && r.error == DanglingRef(src.backend, id)
      ensures r.Ok? ==> Grown(old(View()), View(), {Key(src.spec, id)}) && r.value == imported[Key(src.spec, id)]
      ensures r.Ok? && Key(src.spec, id) in old(imported) ==> View() == old(View())
      ensures r.Ok? && Key(src.spec, id) !in old(imported) ==>
                && queue == old(queue) + [Key(src.spec, id)]
                && comps == old(comps)[CompId(id.section, r.value) := Imported(None, id.name, Key(src.spec, id))]
                && IsFirstFree(old(comps), src.namespace, id, r.value)
      ensures src.spec in sources
      ensures sources == if src.spec in old(sources) then old(sources) else old(sources)[src.spec := src]
      ensures introduced == old(introduced) + {src}
    {
      Remember(src);
      var key := Key(src.spec, id);
      if key in imported {
        assert KeyHeld(specs, View(), key);
        GrownNone(View(), key);
        return Ok(imported[key]);
      }
      if id !in specs[src.spec] {
        return Err(DanglingRef(src.backend, id));
      }
      var published := Reserve(src, key);
      return Ok(published);
    }

    /** Registers everything `node` refers to and repoints the copy. Fails exactly when some
        reference is not local or names nothing. */
    method Repoint(src: Source, node: Node) returns (r: Result<Node, Error>)
      requires Valid() && src.spec in specs
      modifies this
      ensures Valid()
      ensures r.Ok? <==> RefsGood(specs, src.spec, node)
      ensures r.Err? ==> !r.error.Collision?
      ensures r.Ok? ==> Grown(old(View()), View(), Targets(src.spec, node))
      ensures r.Ok? ==> RefsImported(imported, src.spec, node) && r.value == Publish(imported, src.spec, node)
      ensures sources == old(sources) || (src.spec !in old(sources) && sources == old(sources)[src.spec := src])
      ensures old(introduced) <= introduced <= old(introduced) + {src}
    {
      var refs := Refs(node);
      var rename: map<string, string> := map[];
      for i := 0 to |refs|
        invariant Valid()
        invariant WalkedTo(specs, src.spec, old(View()), View(), refs, i, rename)
        invariant sources == old(sources) || (src.spec !in old(sources) && sources == old(sources)[src.spec := src])
        invariant old(introduced) <= introduced <= old(introduced) + {src}
      {
        var parsed := ParseLocalRef(refs[i]);
        if parsed.None? {
          assert refs[i] in Refs(node);
          return Err(UnsupportedRef(refs[i]));
        }
        var ref := parsed.value;
        ParsedIsWellFormed(refs[i]);
        ghost var before := View();
        var published := Enqueue(src, ref.id);
        if published.Err? {
          assert refs[i] in Refs(node);
          return Err(published.error);
        }
        WalkStep(specs, src.spec, old(View()), before, View(), refs, i, rename);
        rename := rename[refs[i] := RefText(CompId(ref.id.section, published.value), ref.tail)];
      }
      WalkDone(specs, src.spec, old(View()), View(), node, rename);
      return Ok(Rewrite(node, rename));
    }

    /** `buildOperation`: fold, stamp, repoint. */
    method BuildOperation(e: ExposedOp) returns (r: Result<Node, Error>)
      requires Valid() && e.source.spec in specs && WellFormedOp(e.op.node)
      modifies this
      ensures Valid()
      ensures r.Ok? <==> ParamsFold(e) && RefsGood(specs, e.source.spec, Prepared(e))
      ensures r.Err? ==> !r.error.Collision?
      ensures r.Ok? ==> Grown(old(View()), View(), Targets(e.source.spec, Prepared(e)))
      ensures r.Ok? ==> RefsImported(imported, e.source.spec, Prepared(e))
                        && r.value == Publish(imported, e.source.spec, Prepared(e))
      ensures old(introduced) <= introduced <= old(introduced) + {e.source}
    {
      var node := e.op.node;
      if e.op.pathParams.Some? {
        var folded := FoldPathParams(node, e.op.pathParams.value);
        if folded.None? {
          return Err(ParamsNotSequence);
        }
        FoldedParams(node, e.op.pathParams.value.items, "", "");
        node := folded.value;
      }
      node := Stamped(node, e);
      r := Repoint(e.source, node);
    }

    /** One pass of the worklist: copy a component into its slot, importing what it names. */
    method CopyComponent(key: Key) returns (err: Option<Error>, ghost grown: State)
      requires Valid() && KeyHeld(specs, View(), key)
      modifies this
      ensures Valid()
      ensures err.None? <==> RefsGood(specs, key.spec, NodeOf(specs, key))
      ensures err.Some? ==> !err.value.Collision?
      ensures err.None? ==>
                && Grown(old(View()), grown, Targets(key.spec, NodeOf(specs, key)))
                && Consistent(specs, grown)
                && View() == FilledWith(grown, key, Publish(imported, key.spec, NodeOf(specs, key)))
      ensures introduced == old(introduced)
    {
      ghost var before := View();
      var slot := SlotOf(imported, key);
      var copied := Repoint(sources[key.spec], NodeOf(specs, key));
      if copied.Err? {
        return Some(copied.error), before;
      }
      err, grown := None, View();
      assert SlotHeld(specs, before, slot);
      comps := comps[slot := Imported(Some(copied.value), comps[slot].baseName, key)];
      FillKeepsConsistent(specs, grown, View(), key, copied.value);
      NamedMore(introduced, introduced, grown, View());
    }

    /** The body of the worklist loop, at position `i`. */
    method Visit(i: nat, ghost roots: set<Key>) returns (err: Option<Error>)
      requires Valid() && i < |queue| && AwaitedFrom(View(), i) && AllReachable(specs, roots, imported.Keys)
      modifies this
      ensures Valid()
      ensures err.None? ==> i < |queue| && AwaitedFrom(View(), i + 1) && AllReachable(specs, roots, imported.Keys)
      ensures err.None? ==> NamesKept(old(imported), imported)
      ensures err.None? ==>
              |queue| == old(|queue|) || |AllKeys(specs) - imported.Keys| < |AllKeys(specs) - old(imported).Keys|
      ensures err.None? ==> |AllKeys(specs) - imported.Keys| <= |AllKeys(specs) - old(imported).Keys|
      ensures err.Some? ==> !err.value.Collision? && Stuck(specs, roots)
      ensures introduced == old(introduced)
    {
      var key := queue[i];
      assert KeyHeld(specs, View(), key);
      if comps[SlotOf(imported, key)].node.Some? {
        SkipFilled(specs, View(), i);
        return None;
      }
      ghost var before := View();
      ghost var grown;
      err, grown := CopyComponent(key);
      if err.Some? {
        assert Reachable(specs, roots, key);
        return;
      }
      DrainStep(specs, roots, before, grown, View(), i, key);
      FewerLeft(AllKeys(specs), before.imported.Keys, imported.Keys);
    }

    /** The loop. It ends because each pass imports only components the specs have. */
    method DrainAll(ghost roots: set<Key>) returns (err: Option<Error>)
      requires Valid() && imported.Keys == roots
      requires AwaitedFrom(View(), 0)
      modifies this
      ensures Valid()
      ensures err.None? ==> AwaitedFrom(View(), |queue|) && AllReachable(specs, roots, imported.Keys)
      ensures err.None? ==> NamesKept(old(imported), imported)
      ensures err.Some? ==> !err.value.Collision? && Stuck(specs, roots)
      ensures introduced == old(introduced)
    {
      RootsReachable(specs, roots);
      ghost var all := AllKeys(specs);
      ghost var before := imported;
      err := None;
      var i := 0;
      while i < |queue|
        invariant Valid() && 0 <= i <= |queue|
        invariant AwaitedFrom(View(), i)
        invariant AllReachable(specs, roots, imported.Keys)
        invariant NamesKept(before, imported) && introduced == old(introduced)
        invariant err == None
        decreases |all - imported.Keys|, |queue| - i
      {
        ghost var prior := imported;
        err := Visit(i, roots);
        if err.Some? {
          return;
        }
        NamesKeptTrans(before, prior, imported);
        i := i + 1;
      }
    }

    /** The worklist. On success what is imported is exactly what the roots reach, all of it
        filled. */
    method DrainQueue(ghost roots: set<Key>) returns (err: Option<Error>)
      requires Valid() && imported.Keys == roots
      requires AwaitedFrom(View(), 0)
      modifies this
      ensures Valid()
      ensures err.None? ==> Complete(View()) && queue == []
      ensures err.None? ==> ExactlyReachable(specs, roots, imported.Keys)
      ensures err.None? ==> NamesKept(old(imported), imported)
      ensures err.Some? ==> !err.value.Collision? && Stuck(specs, roots)
      ensures introduced == old(introduced)
    {
      err := DrainAll(roots);
      if err.Some? {
        return;
      }
      DrainDone(specs, roots, View());
      queue := [];
    }
  }

  /** Something reachable refers to what its spec does not have. */
  ghost predicate Stuck(specs: Specs, roots: set<Key>) {
    exists k :: Reachable(specs, roots, k) && Known(specs, k) && !RefsGood(specs, k.spec, NodeOf(specs, k))
  }

  /** Every component of every spec: the worklist cannot import anything else. */
  function AllKeys(specs: Specs): set<Key> {
    set spec, id | spec in specs && id in specs[spec] :: Key(spec, id)
  }

  /** Every slot has been filled. */
  predicate Complete(s: State) {
    forall slot {:trigger s.comps[slot]} | slot in s.comps :: s.comps[slot].node.Some?
  }

  lemma DrainDone(specs: Specs, roots: set<Key>, s: State)
    requires Consistent(specs, s) && AwaitedFrom(s, |s.queue|)
    requires roots <= s.imported.Keys && AllReachable(specs, roots, s.imported.Keys)
    ensures Complete(s) && ExactlyReachable(specs, roots, s.imported.Keys)
    ensures Consistent(specs, s.(queue := [])) && Complete(s.(queue := []))
  {
    forall slot | slot in s.comps ensures s.comps[slot].node.Some? {
      assert s.comps[slot].node.None? ==> QueuedFrom(s.queue, |s.queue|, s.comps[slot].key);
    }
    AllReached(specs, s, roots);
    forall k | k in s.imported ensures KeyHeld(specs, s.(queue := []), k) {
      assert KeyHeld(specs, s, k);
    }
    forall slot | slot in s.comps ensures SlotHeld(specs, s.(queue := []), slot) {
      assert SlotHeld(specs, s, slot);
    }
  }

  lemma SkipFilled(specs: Specs, s: State, i: nat)
    requires Consistent(specs, s) && AwaitedFrom(s, i) && i < |s.queue|
    requires KeyHeld(specs, s, s.queue[i]) && s.comps[SlotOf(s.imported, s.queue[i])].node.Some?
    ensures AwaitedFrom(s, i + 1)
  {
    forall slot | slot in s.comps && s.comps[slot].node.None? ensures QueuedFrom(s.queue, i + 1, s.comps[slot].key) {
      assert SlotHeld(specs, s, slot) && QueuedFrom(s.queue, i, s.comps[slot].key);
      var j :| i <= j < |s.queue| && s.queue[j] == s.comps[slot].key;
    }
  }

  lemma NewlyReachable(specs: Specs, roots: set<Key>, s: State, t: State, key: Key)
    requires AllReachable(specs, roots, s.imported.Keys) && key in s.imported && Known(specs, key)
    requires Grown(s, t, Targets(key.spec, NodeOf(specs, key)))
    ensures AllReachable(specs, roots, t.imported.Keys)
  {
    forall k | k in t.imported ensures Reachable(specs, roots, k) {
      if k !in s.imported {
        assert Reachable(specs, roots, key);
        StepReachable(specs, roots, key, k);
      }
    }
  }

  lemma ImportedAreKeys(specs: Specs, s: State)
    requires Consistent(specs, s)
    ensures s.imported.Keys <= AllKeys(specs)
  {
    forall k | k in s.imported ensures k in AllKeys(specs) {
      assert KeyHeld(specs, s, k);
    }
  }

  lemma FewerLeft<T>(all: set<T>, a: set<T>, b: set<T>)
    requires a <= b <= all
    ensures a == b || |all - b| < |all - a|
  {
    assert all - a == (all - b) + (b - a);
  }

  lemma CopyStable(specs: Specs, before: map<Key, string>, after: map<Key, string>, k: Key, n: Node)
    requires HoldsCopy(specs, before, k, n)
    requires before.Keys <= after.Keys && forall x | x in before :: after[x] == before[x]
    ensures HoldsCopy(specs, after, k, n)
  {
    PublishStable(before, after, k.spec, NodeOf(specs, k));
  }

  function FilledWith(t: State, key: Key, n: Node): State
    requires key in t.imported
  {
    t.(comps := t.comps[SlotOf(t.imported, key) := Imported(Some(n), key.id.name, key)])
  }

  lemma DrainStep(specs: Specs, roots: set<Key>, s: State, t: State, u: State, i: nat, key: Key)
    requires Consistent(specs, s) && Consistent(specs, t) && Consistent(specs, u)
    requires key in s.imported && Known(specs, key) && i < |s.queue| && s.queue[i] == key
    requires Grown(s, t, Targets(key.spec, NodeOf(specs, key)))
    requires u == FilledWith(t, key, Publish(t.imported, key.spec, NodeOf(specs, key)))
    requires AwaitedFrom(s, i) && AllReachable(specs, roots, s.imported.Keys)
    ensures AwaitedFrom(u, i + 1) && AllReachable(specs, roots, u.imported.Keys)
    ensures u.imported.Keys <= AllKeys(specs)
    ensures u.imported.Keys == s.imported.Keys ==> u.queue == s.queue
  {
    ImportedAreKeys(specs, u);
    NewlyReachable(specs, roots, s, t, key);
    assert KeyHeld(specs, s, key);
    forall slot | slot in u.comps && u.comps[slot].node.None? ensures QueuedFrom(u.queue, i + 1, u.comps[slot].key) {
      if slot in s.comps && s.comps[slot].node.None? {
        assert QueuedFrom(s.queue, i, s.comps[slot].key);
      }
      StillQueued(specs, s, t, Targets(key.spec, NodeOf(specs, key)), i, key, slot);
    }
  }

  /** Filling a slot with its published copy keeps the books straight. */
  lemma FillKeepsConsistent(specs: Specs, t: State, u: State, key: Key, n: Node)
    requires Consistent(specs, t) && key in t.imported && HoldsCopy(specs, t.imported, key, n)
    requires u == FilledWith(t, key, n)
    ensures Consistent(specs, u)
  {
    assert KeyHeld(specs, t, key);
    forall k | k in u.imported ensures KeyHeld(specs, u, k) {
      assert KeyHeld(specs, t, k);
    }
    forall slot | slot in u.comps ensures SlotHeld(specs, u, slot) {
      assert SlotHeld(specs, t, slot);
    }
  }

  /** An empty slot other than the one just filled is still waiting further down the queue. */
  lemma StillQueued(specs: Specs, s: State, t: State, more: set<Key>, i: nat, key: Key, slot: CompId)
    requires Consistent(specs, s) && Consistent(specs, t) && key in s.imported
    requires Grown(s, t, more)
    requires i < |s.queue| && s.queue[i] == key
    requires slot in s.comps && s.comps[slot].node.None? ==> QueuedFrom(s.queue, i, s.comps[slot].key)
    requires slot in t.comps && t.comps[slot].node.None? && slot != SlotOf(s.imported, key)
    ensures QueuedFrom(t.queue, i + 1, t.comps[slot].key)
  {
    var k := t.comps[slot].key;
    assert SlotHeld(specs, t, slot);
    if slot in s.comps {
      assert SlotHeld(specs, s, slot);
      var j :| i <= j < |s.queue| && s.queue[j] == k;
      assert j != i && t.queue[j] == k;
    } else {
      assert k in s.imported ==> KeyHeld(specs, s, k);
      assert QueuedFrom(t.queue, |s.queue|, k);
    }
  }

  /** With every slot filled, the imported set is closed, so nothing reachable is missing. */
  lemma AllReached(specs: Specs, s: State, roots: set<Key>)
    requires Consistent(specs, s) && roots <= s.imported.Keys && Complete(s)
    requires AllReachable(specs, roots, s.imported.Keys)
    ensures ExactlyReachable(specs, roots, s.imported.Keys)
  {
    forall k, t | k in s.imported && RefersTo(specs, k, t)
      ensures t in s.imported
    {
      FilledTargets(specs, s, k);
    }
    forall k | Reachable(specs, roots, k)
      ensures k in s.imported
    {
      ClosedHoldsReachable(specs, roots, s.imported.Keys, k);
    }
  }

  lemma FilledTargets(specs: Specs, s: State, k: Key)
    requires Consistent(specs, s) && k in s.imported
    requires SlotOf(s.imported, k) in s.comps ==> s.comps[SlotOf(s.imported, k)].node.Some?
    ensures Known(specs, k) && RefsImported(s.imported, k.spec, NodeOf(specs, k))
  {
    assert KeyHeld(specs, s, k);
    assert SlotHeld(specs, s, SlotOf(s.imported, k));
  }

  lemma ClosedHoldsReachable(specs: Specs, roots: set<Key>, held: set<Key>, k: Key)
    requires roots <= held && Reachable(specs, roots, k)
    requires forall k, t | k in held && RefersTo(specs, k, t) :: t in held
    ensures k in held
  {
    var path :| IsPath(specs, roots, path) && path[|path| - 1] == k;
    ClosedHoldsPath(specs, roots, held, path);
  }

  /** Reserving a free slot disturbs nothing that was published before. */
  lemma ImportKeepsConsistent(specs: Specs, s: State, t: State, key: Key)
    requires Consistent(specs, s) && Known(specs, key) && WellFormed(key.id)
    requires Reserved(s, t, key)
    ensures Consistent(specs, t) && Grown(s, t, {key})
  {
    forall k | k in t.imported ensures KeyHeld(specs, t, k) {
      assert k != key ==> KeyHeld(specs, s, k);
    }
    forall slot | slot in t.comps ensures SlotHeld(specs, t, slot) {
      if slot != SlotOf(t.imported, key) {
        assert SlotHeld(specs, s, slot);
        if s.comps[slot].node.Some? {
          CopyStable(specs, s.imported, t.imported, s.comps[slot].key, s.comps[slot].node.value);
        }
      }
    }
    ImportGrows(specs, s, t, key);
  }

  lemma ImportGrows(specs: Specs, s: State, t: State, key: Key)
    requires Consistent(specs, s) && Reserved(s, t, key)
    ensures Grown(s, t, {key})
  {
    assert t.queue[|s.queue|] == key;
    assert QueuedFrom(t.queue, |s.queue|, key);
  }

  predicate Reserved(s: State, t: State, key: Key) {
    && key !in s.imported && key in t.imported && t.imported[key] != ""
    && t.imported == s.imported[key := t.imported[key]]
    && SlotOf(t.imported, key) !in s.comps
    && t.comps == s.comps[SlotOf(t.imported, key) := Imported(None, key.id.name, key)]
    && t.queue == s.queue + [key]
  }
}
