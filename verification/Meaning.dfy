/** What a document means: every `$ref` replaced by what it points at, to any depth.
    Key order carries no meaning; component names carry none either. */
module Meaning {
  import opened Wrappers
  import opened JsonPointer
  import opened Nodes

  /** The components of one document. */
  type Doc = map<CompId, Node>

  /** `Link` is a resolved reference: the place `tail` inside the unfolded component. */
  datatype Tree =
    | Cut
    | Leaf(tag: string, value: string)
    | List(items: seq<Tree>)
    | Object(fields: map<string, Tree>)
    | Link(target: Tree, tail: string)
    | Dangling(at: CompId, tail: string)

  function Unfold(doc: Doc, n: Node, depth: nat): Tree
    decreases depth, 1, n
  {
    match n
    case Scalar(tag, value) => Leaf(tag, value)
    case Sequence(items) => List(seq(|items|, i requires 0 <= i < |items| => Unfold(doc, items[i], depth)))
    case Mapping(es) => Object(UnfoldFields(doc, es, depth))
  }

  function UnfoldFields(doc: Doc, es: seq<Entry>, depth: nat): map<string, Tree>
    decreases depth, 1, es
  {
    map k | k in Keys(es) :: UnfoldEntry(doc, es[Index(es, k)], depth)
  }

  function UnfoldEntry(doc: Doc, e: Entry, depth: nat): Tree
    decreases depth, 1, e
  {
    if IsRef(e) && ParseLocalRef(e.value.value).Some? then
      UnfoldRef(doc, ParseLocalRef(e.value.value).value, depth)
    else
      Unfold(doc, e.value, depth)
  }

  function UnfoldRef(doc: Doc, r: Ref, depth: nat): Tree
    decreases depth, 0
  {
    if depth == 0 then Cut
    else if r.id in doc then Link(Unfold(doc, doc[r.id], depth - 1), r.tail)
    else Dangling(r.id, r.tail)
  }

  /** Every reference of `n` resolves to a component of `doc`. */
  predicate Resolves(doc: Doc, n: Node) {
    forall r | r in Refs(n) :: ParseLocalRef(r).Some? && ParseLocalRef(r).value.id in doc
  }

  /** Two components nobody can tell apart by following references. */
  ghost predicate Alike(doc: Doc, a: CompId, b: CompId)
    requires a in doc && b in doc
  {
    forall d: nat :: Unfold(doc, doc[a], d) == Unfold(doc, doc[b], d)
  }

  /** `rename` sends a reference to where its component moved, and keeps its tail. */
  predicate RefFollows(r: string, rename: map<string, string>, moved: map<CompId, CompId>) {
    && ParseLocalRef(r).Some?
    && ParseLocalRef(r).value.id in moved
    && ParseLocalRef(Renamed(rename, r)) ==
       Some(Ref(moved[ParseLocalRef(r).value.id], ParseLocalRef(r).value.tail))
  }

  predicate RefsFollow(n: Node, rename: map<string, string>, moved: map<CompId, CompId>) {
    forall r | r in Refs(n) :: RefFollows(r, rename, moved)
  }

  /** How the copy of each component was rewritten. */
  type Renames = map<CompId, map<string, string>>

  /** `dst` holds, under its new name, a rewritten copy of a moved component of `src`, or of
      one that `src` cannot tell from it. */
  ghost predicate CarriesOne(src: Doc, dst: Doc, renames: Renames,
                             moved: map<CompId, CompId>, like: map<CompId, CompId>, id: CompId)
  {
    && id in moved && id in src && id in like && like[id] in src && id in renames
    && Alike(src, like[id], id)
    && RefsFollow(src[like[id]], renames[id], moved)
    && moved[id] in dst
    && dst[moved[id]] == Rewrite(src[like[id]], renames[id])
  }

  ghost predicate Carries(src: Doc, dst: Doc, renames: Renames,
                          moved: map<CompId, CompId>, like: map<CompId, CompId>)
  {
    forall id {:trigger CarriesOne(src, dst, renames, moved, like, id)} | id in moved ::
      CarriesOne(src, dst, renames, moved, like, id)
  }

  lemma ItemsUnfoldAlike(d: Doc, ns: seq<Node>, d': Doc, ns': seq<Node>, depth: nat)
    requires |ns| == |ns'|
    requires forall i | 0 <= i < |ns| :: Unfold(d, ns[i], depth) == Unfold(d', ns'[i], depth)
    ensures Unfold(d, Sequence(ns), depth) == Unfold(d', Sequence(ns'), depth)
  {
    var t, t' := Unfold(d, Sequence(ns), depth).items, Unfold(d', Sequence(ns'), depth).items;
    assert |t| == |t'| == |ns|;
    assert forall i | 0 <= i < |ns| :: t[i] == t'[i];
    assert t == t';
  }

  lemma FieldsUnfoldAlike(d: Doc, es: seq<Entry>, d': Doc, es': seq<Entry>, depth: nat)
    requires Keys(es) == Keys(es')
    requires forall k | k in Keys(es) ::
               UnfoldEntry(d, es[Index(es, k)], depth) == UnfoldEntry(d', es'[Index(es', k)], depth)
    ensures UnfoldFields(d, es, depth) == UnfoldFields(d', es', depth)
  {
  }

  /** Moving components and redirecting references in one pass changes no unfolding. */
  lemma {:induction false} MovedUnfoldsAlike(src: Doc, dst: Doc, renames: Renames,
                                             moved: map<CompId, CompId>, like: map<CompId, CompId>,
                                             n: Node, rename: map<string, string>, depth: nat)
    requires Carries(src, dst, renames, moved, like)
    requires RefsFollow(n, rename, moved)
    ensures Unfold(dst, Rewrite(n, rename), depth) == Unfold(src, n, depth)
    decreases depth, 1, n
  {
    match n
    case Scalar(_, _) =>
    case Sequence(items) =>
      var items' := Rewrite(n, rename).items;
      forall i | 0 <= i < |items|
        ensures Unfold(dst, items'[i], depth) == Unfold(src, items[i], depth)
      {
        forall r | r in Refs(items[i]) ensures r in Refs(n) {
          RefsOfItem(n, i, r);
        }
        MovedUnfoldsAlike(src, dst, renames, moved, like, items[i], rename, depth);
      }
      ItemsUnfoldAlike(dst, items', src, items, depth);
    case Mapping(es) =>
      var es' := Rewrite(n, rename).entries;
      assert forall i | 0 <= i < |es| :: es'[i] == RewriteEntry(es[i], rename);
      RewriteKeys(es, es');
      forall k | k in Keys(es)
        ensures UnfoldEntry(dst, es'[Index(es', k)], depth) == UnfoldEntry(src, es[Index(es, k)], depth)
      {
        var i := Index(es, k);
        forall r | r in EntryRefs(es[i]) ensures r in Refs(n) {
          RefsOfEntry(n, i, r);
        }
        MovedEntryUnfoldsAlike(src, dst, renames, moved, like, es[i], rename, depth);
      }
      FieldsUnfoldAlike(dst, es', src, es, depth);
  }

  lemma {:induction false} MovedEntryUnfoldsAlike(src: Doc, dst: Doc, renames: Renames,
                                                  moved: map<CompId, CompId>, like: map<CompId, CompId>,
                                                  e: Entry, rename: map<string, string>, depth: nat)
    requires Carries(src, dst, renames, moved, like)
    requires forall r | r in EntryRefs(e) :: RefFollows(r, rename, moved)
    ensures UnfoldEntry(dst, RewriteEntry(e, rename), depth) == UnfoldEntry(src, e, depth)
    decreases depth, 1, e
  {
    if IsRef(e) {
      var ref := e.value.value;
      assert ref in EntryRefs(e);
      var id := ParseLocalRef(ref).value.id;
      assert CarriesOne(src, dst, renames, moved, like, id);
      if depth > 0 {
        MovedUnfoldsAlike(src, dst, renames, moved, like, src[like[id]], renames[id], depth - 1);
        assert Alike(src, like[id], id);
      }
    } else {
      MovedUnfoldsAlike(src, dst, renames, moved, like, e.value, rename, depth);
      assert !IsRef(RewriteEntry(e, rename));
    }
  }

  /** The other way: nodes that unfold alike have references that do, one by one. */
  lemma {:induction false} AlikeRefs(src: Doc, dst: Doc, n: Node, rename: map<string, string>, q: string, depth: nat)
    requires KeysUnique(n) && q in Refs(n)
    requires ParseLocalRef(q).Some? && ParseLocalRef(Renamed(rename, q)).Some?
    requires Unfold(dst, Rewrite(n, rename), depth) == Unfold(src, n, depth)
    ensures UnfoldRef(dst, ParseLocalRef(Renamed(rename, q)).value, depth)
            == UnfoldRef(src, ParseLocalRef(q).value, depth)
    decreases n
  {
    var i := RefSource(n, q);
    match n
    case Sequence(items) =>
      assert Unfold(dst, Rewrite(n, rename), depth).items[i] == Unfold(src, n, depth).items[i];
      AlikeRefs(src, dst, items[i], rename, q, depth);
    case Mapping(es) =>
      AlikeEntries(src, dst, es, rename, i, depth);
      if !IsRef(es[i]) {
        assert !IsRef(RewriteEntry(es[i], rename));
        AlikeRefs(src, dst, es[i].value, rename, q, depth);
      }
  }

  lemma AlikeEntries(src: Doc, dst: Doc, es: seq<Entry>, rename: map<string, string>, i: nat, depth: nat)
    requires Unique(es) && i < |es|
    requires Unfold(dst, Rewrite(Mapping(es), rename), depth) == Unfold(src, Mapping(es), depth)
    ensures UnfoldEntry(dst, RewriteEntry(es[i], rename), depth) == UnfoldEntry(src, es[i], depth)
  {
    var es' := Rewrite(Mapping(es), rename).entries;
    IndexIs(es, es[i].key, i);
    IndexIs(es', es[i].key, i);
    assert UnfoldFields(dst, es', depth)[es[i].key] == UnfoldFields(src, es, depth)[es[i].key];
  }
}
