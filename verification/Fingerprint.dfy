/** The structural fingerprint behind dedupe. Recursive components are closed off with
    back-references counted from the top of the stack of components being hashed.
    The digest is modelled as the structure it digests, so equal prints are equal structures. */
module Fingerprint {
  import opened JsonPointer
  import opened Nodes
  import opened Meaning

  /** `hashComponent`'s result. */
  datatype Print =
    | Cycle(up: nat)
    | Missing(id: CompId)
    | Digest(form: Form)

  /** `canonical`'s result: mappings by key, references by the print of their target. */
  datatype Form =
    | Atom(tag: string, value: string)
    | Items(items: seq<Form>)
    | Fields(fields: map<string, Form>)
    | RefTo(target: Print, tail: string)

  function Elements(stack: seq<CompId>): set<CompId> {
    set id | id in stack
  }

  /** Position of `id` on the stack, or the stack's length. */
  function Find(stack: seq<CompId>, id: CompId): (i: nat)
    ensures i <= |stack|
    ensures i < |stack| ==> stack[i] == id
    ensures id !in stack[..i]
    ensures i == |stack| <==> id !in stack
  {
    if stack == [] || stack[0] == id then 0 else
      var i := 1 + Find(stack[1..], id);
      assert stack[..i] == [stack[0]] + stack[1..][..i - 1];
      i
  }

  function HashComponent(doc: Doc, id: CompId, stack: seq<CompId>): Print
    decreases |doc.Keys - Elements(stack)|, 0
  {
    var i := Find(stack, id);
    if i < |stack| then Cycle(|stack| - i)
    else if id !in doc then Missing(id)
    else
      assert Elements(stack + [id]) == Elements(stack) + {id};
      assert id in doc.Keys - Elements(stack);
      assert doc.Keys - Elements(stack + [id]) == (doc.Keys - Elements(stack)) - {id};
      Digest(Canonical(doc, doc[id], stack + [id]))
  }

  function Canonical(doc: Doc, n: Node, stack: seq<CompId>): Form
    decreases |doc.Keys - Elements(stack)|, 1, n
  {
    match n
    case Scalar(tag, value) => Atom(tag, value)
    case Sequence(items) => Items(seq(|items|, i requires 0 <= i < |items| => Canonical(doc, items[i], stack)))
    case Mapping(es) => Fields(CanonicalFields(doc, es, stack))
  }

  function CanonicalFields(doc: Doc, es: seq<Entry>, stack: seq<CompId>): map<string, Form>
    decreases |doc.Keys - Elements(stack)|, 1, es
  {
    map k | k in Keys(es) :: CanonicalEntry(doc, es[Index(es, k)], stack)
  }

  function CanonicalEntry(doc: Doc, e: Entry, stack: seq<CompId>): Form
    decreases |doc.Keys - Elements(stack)|, 1, e
  {
    if IsRef(e) && ParseLocalRef(e.value.value).Some? then
      var r := ParseLocalRef(e.value.value).value;
      RefTo(HashComponent(doc, r.id, stack), r.tail)
    else
      Canonical(doc, e.value, stack)
  }

  /** Two stacks that grew in step: each level holds components with equal prints. */
  predicate InStep(doc: Doc, a: seq<CompId>, b: seq<CompId>) {
    && |a| == |b|
    && forall i | 0 <= i < |a| ::
         && HashComponent(doc, a[i], a[..i]).Digest?
         && HashComponent(doc, a[i], a[..i]) == HashComponent(doc, b[i], b[..i])
  }

  lemma InStepPrefix(doc: Doc, a: seq<CompId>, b: seq<CompId>, k: nat)
    requires InStep(doc, a, b) && k <= |a|
    ensures InStep(doc, a[..k], b[..k])
  {
    forall i | 0 <= i < k
      ensures HashComponent(doc, a[..k][i], a[..k][..i]).Digest?
      ensures HashComponent(doc, a[..k][i], a[..k][..i]) == HashComponent(doc, b[..k][i], b[..k][..i])
    {
      TakeTake(a, k, i);
      TakeTake(b, k, i);
    }
  }

  lemma TakeTake<T>(s: seq<T>, k: nat, i: nat)
    requires i < k <= |s|
    ensures s[..k][..i] == s[..i] && s[..k][i] == s[i]
  {
  }

  lemma PushTake<T>(s: seq<T>, x: T, i: nat)
    requires i <= |s|
    ensures (s + [x])[..i] == s[..i] && (s + [x])[i] == if i == |s| then x else s[i]
  {
  }

  lemma InStepPush(doc: Doc, a: seq<CompId>, b: seq<CompId>, x: CompId, y: CompId)
    requires InStep(doc, a, b)
    requires HashComponent(doc, x, a).Digest?
    requires HashComponent(doc, x, a) == HashComponent(doc, y, b)
    ensures InStep(doc, a + [x], b + [y])
  {
    var c, d := a + [x], b + [y];
    forall i | 0 <= i < |c|
      ensures HashComponent(doc, c[i], c[..i]).Digest?
              && HashComponent(doc, c[i], c[..i]) == HashComponent(doc, d[i], d[..i])
    {
      PushTake(a, x, i);
      PushTake(b, y, i);
      assert a[..|a|] == a && b[..|b|] == b;
    }
  }

  /** Equal prints under stacks in step mean equal unfoldings. A back-reference is followed
      to the level it names, where the stacks hold components already known to agree. */
  lemma {:induction false} EqualPrintsUnfoldAlike(doc: Doc, x: CompId, a: seq<CompId>,
                                                  y: CompId, b: seq<CompId>, tail: string, depth: nat)
    requires InStep(doc, a, b)
    requires HashComponent(doc, x, a) == HashComponent(doc, y, b)
    ensures UnfoldRef(doc, Ref(x, tail), depth) == UnfoldRef(doc, Ref(y, tail), depth)
    decreases depth, 2, |a|
  {
    match HashComponent(doc, x, a)
    case Missing(_) =>
    case Cycle(up) =>
      var i := |a| - up;
      assert a[i] == x && b[i] == y;
      InStepPrefix(doc, a, b, i);
      EqualPrintsUnfoldAlike(doc, x, a[..i], y, b[..i], tail, depth);
    case Digest(_) =>
      if depth > 0 {
        InStepPush(doc, a, b, x, y);
        EqualFormsUnfoldAlike(doc, doc[x], a + [x], doc[y], b + [y], depth - 1);
      }
  }

  lemma {:induction false} EqualFormsUnfoldAlike(doc: Doc, m: Node, a: seq<CompId>,
                                                 n: Node, b: seq<CompId>, depth: nat)
    requires InStep(doc, a, b)
    requires Canonical(doc, m, a) == Canonical(doc, n, b)
    ensures Unfold(doc, m, depth) == Unfold(doc, n, depth)
    decreases depth, 3, m
  {
    match m
    case Scalar(_, _) =>
    case Sequence(items) =>
      forall i | 0 <= i < |items|
        ensures Unfold(doc, items[i], depth) == Unfold(doc, n.items[i], depth)
      {
        assert Canonical(doc, m, a).items[i] == Canonical(doc, n, b).items[i];
        EqualFormsUnfoldAlike(doc, items[i], a, n.items[i], b, depth);
      }
      ItemsUnfoldAlike(doc, items, doc, n.items, depth);
    case Mapping(es) =>
      assert CanonicalFields(doc, es, a) == CanonicalFields(doc, n.entries, b);
      assert Keys(es) == CanonicalFields(doc, es, a).Keys == CanonicalFields(doc, n.entries, b).Keys == Keys(n.entries);
      forall k | k in Keys(es)
        ensures UnfoldEntry(doc, es[Index(es, k)], depth)
             == UnfoldEntry(doc, n.entries[Index(n.entries, k)], depth)
      {
        assert CanonicalFields(doc, es, a)[k] == CanonicalFields(doc, n.entries, b)[k];
        EqualEntriesUnfoldAlike(doc, es[Index(es, k)], a, n.entries[Index(n.entries, k)], b, depth);
      }
      FieldsUnfoldAlike(doc, es, doc, n.entries, depth);
  }

  lemma {:induction false} EqualEntriesUnfoldAlike(doc: Doc, e: Entry, a: seq<CompId>,
                                                   f: Entry, b: seq<CompId>, depth: nat)
    requires InStep(doc, a, b)
    requires CanonicalEntry(doc, e, a) == CanonicalEntry(doc, f, b)
    ensures UnfoldEntry(doc, e, depth) == UnfoldEntry(doc, f, depth)
    decreases depth, 3, e
  {
    if CanonicalEntry(doc, e, a).RefTo? {
      var r, s := ParseLocalRef(e.value.value).value, ParseLocalRef(f.value.value).value;
      EqualPrintsUnfoldAlike(doc, r.id, a, s.id, b, r.tail, depth);
    } else {
      EqualFormsUnfoldAlike(doc, e.value, a, f.value, b, depth);
    }
  }

  /** Soundness of the fingerprint: components that hash alike from an empty stack cannot
      be told apart at any depth, cyclic or not. */
  lemma EqualPrintsAlike(doc: Doc, x: CompId, y: CompId)
    requires x in doc && y in doc
    requires HashComponent(doc, x, []) == HashComponent(doc, y, [])
    ensures Alike(doc, x, y)
  {
    forall d: nat ensures Unfold(doc, doc[x], d) == Unfold(doc, doc[y], d) {
      EqualPrintsUnfoldAlike(doc, x, [], y, [], "", d + 1);
    }
  }

  // ---- prints do not depend on component names ----

  ghost predicate Injective(moved: map<CompId, CompId>) {
    forall x, y | x in moved && y in moved && moved[x] == moved[y] :: x == y
  }

  /** `b` is `a` with every component under its new name. */
  ghost predicate MovedStack(moved: map<CompId, CompId>, a: seq<CompId>, b: seq<CompId>) {
    |a| == |b| && forall i | 0 <= i < |a| :: a[i] in moved && b[i] == moved[a[i]]
  }

  ghost predicate CarriesExactly(src: Doc, dst: Doc, renames: Renames, moved: map<CompId, CompId>) {
    Injective(moved) && Carries(src, dst, renames, moved, map x | x in moved :: x)
  }

  lemma MovedFind(moved: map<CompId, CompId>, a: seq<CompId>, b: seq<CompId>, id: CompId)
    requires Injective(moved) && MovedStack(moved, a, b) && id in moved
    ensures Find(b, moved[id]) == Find(a, id)
  {
    var i, j := Find(a, id), Find(b, moved[id]);
    assert i < |a| ==> b[i] == moved[id];
    assert j < |b| ==> a[j] == id;
    assert forall k | 0 <= k < i :: a[..i][k] == a[k] && a[k] != id;
    assert forall k | 0 <= k < j :: b[..j][k] == b[k] && b[k] != moved[id];
  }

  lemma ElementsPush(doc: Doc, stack: seq<CompId>, id: CompId)
    requires id in doc && id !in stack
    ensures |doc.Keys - Elements(stack + [id])| < |doc.Keys - Elements(stack)|
  {
    assert Elements(stack + [id]) == Elements(stack) + {id};
    assert id in doc.Keys - Elements(stack);
    assert doc.Keys - Elements(stack + [id]) == (doc.Keys - Elements(stack)) - {id};
  }

  lemma MovedPush(moved: map<CompId, CompId>, a: seq<CompId>, b: seq<CompId>, id: CompId)
    requires MovedStack(moved, a, b) && id in moved
    ensures MovedStack(moved, a + [id], b + [moved[id]])
  {
  }

  lemma CarriedNode(src: Doc, dst: Doc, renames: Renames, moved: map<CompId, CompId>, id: CompId)
    requires CarriesExactly(src, dst, renames, moved) && id in moved
    ensures id in src && id in renames && moved[id] in dst
    ensures dst[moved[id]] == Rewrite(src[id], renames[id]) && RefsFollow(src[id], renames[id], moved)
  {
    assert CarriesOne(src, dst, renames, moved, map x | x in moved :: x, id);
  }

  lemma HashFresh(doc: Doc, id: CompId, stack: seq<CompId>)
    requires id in doc && Find(stack, id) == |stack|
    ensures HashComponent(doc, id, stack) == Digest(Canonical(doc, doc[id], stack + [id]))
  {
  }

  lemma HashSeen(doc: Doc, id: CompId, stack: seq<CompId>)
    requires Find(stack, id) < |stack|
    ensures HashComponent(doc, id, stack) == Cycle(|stack| - Find(stack, id))
  {
  }

  /** A component keeps its fingerprint under any injective renaming of what it reaches,
      cycles included: this is why the same schema imported from two sources collapses. */
  lemma {:induction false} HashIgnoresNames(src: Doc, dst: Doc, renames: Renames,
                                            moved: map<CompId, CompId>, id: CompId,
                                            a: seq<CompId>, b: seq<CompId>)
    requires CarriesExactly(src, dst, renames, moved)
    requires id in moved && MovedStack(moved, a, b)
    ensures HashComponent(dst, moved[id], b) == HashComponent(src, id, a)
    decreases |src.Keys - Elements(a)|, 0
  {
    MovedFind(moved, a, b, id);
    if Find(a, id) < |a| {
      HashSeen(src, id, a);
      HashSeen(dst, moved[id], b);
    } else {
      CarriedNode(src, dst, renames, moved, id);
      ElementsPush(src, a, id);
      MovedPush(moved, a, b, id);
      CanonicalIgnoresNames(src, dst, renames, moved, src[id], renames[id], a + [id], b + [moved[id]]);
      HashFresh(src, id, a);
      HashFresh(dst, moved[id], b);
    }
  }

  lemma {:induction false} CanonicalIgnoresNames(src: Doc, dst: Doc, renames: Renames,
                                                 moved: map<CompId, CompId>, n: Node, rename: map<string, string>,
                                                 a: seq<CompId>, b: seq<CompId>)
    requires CarriesExactly(src, dst, renames, moved)
    requires RefsFollow(n, rename, moved) && MovedStack(moved, a, b)
    ensures Canonical(dst, Rewrite(n, rename), b) == Canonical(src, n, a)
    decreases |src.Keys - Elements(a)|, 1, n
  {
    match n
    case Scalar(_, _) =>
    case Sequence(items) =>
      var items' := Rewrite(n, rename).items;
      forall i | 0 <= i < |items|
        ensures Canonical(dst, items'[i], b) == Canonical(src, items[i], a)
      {
        forall r | r in Refs(items[i]) ensures r in Refs(n) {
          RefsOfItem(n, i, r);
        }
        CanonicalIgnoresNames(src, dst, renames, moved, items[i], rename, a, b);
      }
      ItemsCanonicalAlike(dst, items', b, src, items, a);
    case Mapping(es) =>
      var es' := Rewrite(n, rename).entries;
      assert forall i | 0 <= i < |es| :: es'[i] == RewriteEntry(es[i], rename);
      RewriteKeys(es, es');
      forall k | k in Keys(es)
        ensures CanonicalEntry(dst, es'[Index(es', k)], b) == CanonicalEntry(src, es[Index(es, k)], a)
      {
        var i := Index(es, k);
        forall r | r in EntryRefs(es[i]) ensures r in Refs(n) {
          RefsOfEntry(n, i, r);
        }
        EntryIgnoresNames(src, dst, renames, moved, es[i], rename, a, b);
      }
      FieldsCanonicalAlike(dst, es', b, src, es, a);
  }

  lemma {:induction false} EntryIgnoresNames(src: Doc, dst: Doc, renames: Renames,
                                             moved: map<CompId, CompId>, e: Entry, rename: map<string, string>,
                                             a: seq<CompId>, b: seq<CompId>)
    requires CarriesExactly(src, dst, renames, moved)
    requires (forall r | r in EntryRefs(e) :: RefFollows(r, rename, moved)) && MovedStack(moved, a, b)
    ensures CanonicalEntry(dst, RewriteEntry(e, rename), b) == CanonicalEntry(src, e, a)
    decreases |src.Keys - Elements(a)|, 1, e
  {
    if IsRef(e) {
      assert e.value.value in EntryRefs(e);
      HashIgnoresNames(src, dst, renames, moved, ParseLocalRef(e.value.value).value.id, a, b);
    } else {
      CanonicalIgnoresNames(src, dst, renames, moved, e.value, rename, a, b);
      assert !IsRef(RewriteEntry(e, rename));
    }
  }

  lemma ItemsCanonicalAlike(d: Doc, ms: seq<Node>, a: seq<CompId>, d': Doc, ns: seq<Node>, b: seq<CompId>)
    requires |ms| == |ns|
    requires forall i | 0 <= i < |ms| :: Canonical(d, ms[i], a) == Canonical(d', ns[i], b)
    ensures Canonical(d, Sequence(ms), a) == Canonical(d', Sequence(ns), b)
  {
    var f, g := Canonical(d, Sequence(ms), a).items, Canonical(d', Sequence(ns), b).items;
    assert |f| == |g| && forall i | 0 <= i < |f| :: f[i] == g[i];
  }

  lemma FieldsCanonicalAlike(d: Doc, es: seq<Entry>, a: seq<CompId>, d': Doc, fs: seq<Entry>, b: seq<CompId>)
    requires Keys(es) == Keys(fs)
    requires forall k | k in Keys(es) ::
               CanonicalEntry(d, es[Index(es, k)], a) == CanonicalEntry(d', fs[Index(fs, k)], b)
    ensures CanonicalFields(d, es, a) == CanonicalFields(d', fs, b)
  {
  }

  // ---- the order of keys does not matter ----

  /** The same node up to the order of mapping keys, with each reference to a component on the
      left answered by one to its partner on the right. */
  predicate Reordered(m: Node, n: Node, pair: map<CompId, CompId>) {
    match m
    case Scalar(_, _) => n == m
    case Sequence(items) =>
      n.Sequence? && |n.items| == |items| && forall i | 0 <= i < |items| :: Reordered(items[i], n.items[i], pair)
    case Mapping(es) =>
      && n.Mapping? && Unique(es) && Unique(n.entries) && Keys(es) == Keys(n.entries)
      && forall i, j | 0 <= i < |es| && 0 <= j < |n.entries| && es[i].key == n.entries[j].key ::
           ReorderedEntry(es[i], n.entries[j], pair)
  }

  predicate ReorderedEntry(e: Entry, f: Entry, pair: map<CompId, CompId>) {
    if IsRef(e) && ParseLocalRef(e.value.value).Some? then
      && IsRef(f) && ParseLocalRef(f.value.value).Some?
      && var r, q := ParseLocalRef(e.value.value).value, ParseLocalRef(f.value.value).value;
         r.id in pair && q == Ref(pair[r.id], r.tail)
    else
      Reordered(e.value, f.value, pair)
  }

  /** Components paired off one to one, each the other's node reordered. */
  predicate PairsUp(a: Doc, b: Doc, pair: map<CompId, CompId>) {
    && (forall x, y | x in pair && y in pair && pair[x] == pair[y] :: x == y)
    && forall x {:trigger pair[x]} | x in pair :: x in a && pair[x] in b && Reordered(a[x], b[pair[x]], pair)
  }

  /** Such components have one fingerprint, cycles included. */
  lemma {:induction false} HashIgnoresOrder(a: Doc, b: Doc, pair: map<CompId, CompId>, id: CompId,
                                            s: seq<CompId>, t: seq<CompId>)
    requires PairsUp(a, b, pair) && id in pair && MovedStack(pair, s, t)
    ensures HashComponent(b, pair[id], t) == HashComponent(a, id, s)
    decreases |a.Keys - Elements(s)|, 0
  {
    MovedFind(pair, s, t, id);
    if Find(s, id) < |s| {
      HashSeen(a, id, s);
      HashSeen(b, pair[id], t);
    } else {
      ElementsPush(a, s, id);
      MovedPush(pair, s, t, id);
      CanonicalIgnoresOrder(a, b, pair, a[id], b[pair[id]], s + [id], t + [pair[id]]);
      HashFresh(a, id, s);
      HashFresh(b, pair[id], t);
    }
  }

  lemma {:induction false} CanonicalIgnoresOrder(a: Doc, b: Doc, pair: map<CompId, CompId>, m: Node, n: Node,
                                                 s: seq<CompId>, t: seq<CompId>)
    requires PairsUp(a, b, pair) && Reordered(m, n, pair) && MovedStack(pair, s, t)
    ensures Canonical(b, n, t) == Canonical(a, m, s)
    decreases |a.Keys - Elements(s)|, 1, m
  {
    match m
    case Scalar(_, _) =>
    case Sequence(items) =>
      forall i | 0 <= i < |items| ensures Canonical(b, n.items[i], t) == Canonical(a, items[i], s) {
        CanonicalIgnoresOrder(a, b, pair, items[i], n.items[i], s, t);
      }
      ItemsCanonicalAlike(b, n.items, t, a, items, s);
    case Mapping(es) =>
      forall k | k in Keys(es)
        ensures CanonicalEntry(b, n.entries[Index(n.entries, k)], t) == CanonicalEntry(a, es[Index(es, k)], s)
      {
        EntryIgnoresOrder(a, b, pair, es[Index(es, k)], n.entries[Index(n.entries, k)], s, t);
      }
      FieldsCanonicalAlike(b, n.entries, t, a, es, s);
  }

  lemma {:induction false} EntryIgnoresOrder(a: Doc, b: Doc, pair: map<CompId, CompId>, e: Entry, f: Entry,
                                             s: seq<CompId>, t: seq<CompId>)
    requires PairsUp(a, b, pair) && ReorderedEntry(e, f, pair) && e.key == f.key && MovedStack(pair, s, t)
    ensures CanonicalEntry(b, f, t) == CanonicalEntry(a, e, s)
    decreases |a.Keys - Elements(s)|, 1, e
  {
    if IsRef(e) && ParseLocalRef(e.value.value).Some? {
      HashIgnoresOrder(a, b, pair, ParseLocalRef(e.value.value).value.id, s, t);
    } else {
      CanonicalIgnoresOrder(a, b, pair, e.value, f.value, s, t);
      assert IsRef(f) ==> f.value == e.value && IsRef(e);
    }
  }
}
