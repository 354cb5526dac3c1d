/** YAML node trees and the primitives the merger is built on. Mappings keep their
    document order; anchors, comments and styles are not represented. */
module Nodes {
  import opened Wrappers

  datatype Node =
    | Scalar(tag: string, value: string)
    | Sequence(items: seq<Node>)
    | Mapping(entries: seq<Entry>)

  datatype Entry = Entry(key: string, value: Node)

  function Str(s: string): Node {
    Scalar("!!str", s)
  }

  /** A node's own text; only scalars have any. */
  function ScalarText(n: Node): string {
    if n.Scalar? then n.value else ""
  }

  /** A `$ref` holder is a scalar under the key `$ref`; anything else is a plain value. */
  predicate IsRef(e: Entry) {
    e.key == "$ref" && e.value.Scalar?
  }

  function Keys(es: seq<Entry>): set<string> {
    set e | e in es :: e.key
  }

  /** The entry a lookup finds: the first with that key. */
  function Index(es: seq<Entry>, key: string): (i: nat)
    requires key in Keys(es)
    ensures i < |es| && es[i].key == key
    ensures forall j | 0 <= j < i :: es[j].key != key
  {
    if es[0].key == key then 0 else
      assert key in Keys(es[1..]) by {
        var e :| e in es && e.key == key;
        assert e in es[1..];
      }
      1 + Index(es[1..], key)
  }

  predicate Unique(es: seq<Entry>) {
    forall i, j | 0 <= i < j < |es| :: es[i].key != es[j].key
  }

  /** No mapping has a key twice. */
  predicate KeysUnique(n: Node) {
    match n
    case Scalar(_, _) => true
    case Sequence(items) => forall i | 0 <= i < |items| :: KeysUnique(items[i])
    case Mapping(es) => Unique(es) && forall i | 0 <= i < |es| :: KeysUnique(es[i].value)
  }

  function MapGet(n: Node, key: string): Option<Node> {
    if n.Mapping? && key in Keys(n.entries) then Some(n.entries[Index(n.entries, key)].value) else None
  }

  function MapSet(n: Node, key: string, value: Node): Node
    requires n.Mapping?
  {
    if key in Keys(n.entries) then
      Mapping(n.entries[Index(n.entries, key) := Entry(key, value)])
    else
      Mapping(n.entries + [Entry(key, value)])
  }

  lemma IndexIs(es: seq<Entry>, key: string, i: nat)
    requires i < |es| && es[i].key == key
    requires forall j | 0 <= j < i :: es[j].key != key
    ensures key in Keys(es) && Index(es, key) == i
  {
    assert es[i] in es;
  }

  /** A write is read back, and no other key moves. */
  lemma MapSetGet(n: Node, key: string, value: Node, other: string)
    requires n.Mapping?
    ensures MapGet(MapSet(n, key, value), other) == if other == key then Some(value) else MapGet(n, other)
  {
    var es, es' := n.entries, MapSet(n, key, value).entries;
    MapSetKeys(n, key, value);
    if other in Keys(es) {
      IndexIs(es', other, Index(es, other));
    } else if other == key {
      IndexIs(es', key, |es|);
    }
  }

  lemma MapSetKeys(n: Node, key: string, value: Node)
    requires n.Mapping?
    ensures |MapSet(n, key, value).entries| >= |n.entries|
    ensures forall j | 0 <= j < |n.entries| :: MapSet(n, key, value).entries[j].key == n.entries[j].key
    ensures Keys(MapSet(n, key, value).entries) == Keys(n.entries) + {key}
  {
    var es, es' := n.entries, MapSet(n, key, value).entries;
    assert es'[if key in Keys(es) then Index(es, key) else |es|] == Entry(key, value);
    forall k ensures k in Keys(es') <==> k in Keys(es) || k == key {
      if k in Keys(es) {
        var j :| 0 <= j < |es| && es[j].key == k;
        assert es'[j] in es';
      }
      if k in Keys(es') {
        var j :| 0 <= j < |es'| && es'[j].key == k;
        assert j < |es| ==> es[j] in es;
      }
    }
  }

  function Flatten<T>(ss: seq<seq<T>>): seq<T> {
    if ss == [] then [] else ss[0] + Flatten(ss[1..])
  }

  lemma {:induction false} InFlatten<T>(ss: seq<seq<T>>, x: T)
    ensures x in Flatten(ss) <==> exists i :: 0 <= i < |ss| && x in ss[i]
  {
    if ss != [] {
      InFlatten(ss[1..], x);
      if x in Flatten(ss[1..]) {
        var i :| 0 <= i < |ss[1..]| && x in ss[1..][i];
        assert x in ss[i + 1];
      }
      if i :| 0 <= i < |ss| && x in ss[i] {
        if i > 0 {
          assert x in ss[1..][i - 1];
        }
      }
    }
  }

  /** `walkRefs`: every `$ref` value, in document order. */
  function Refs(n: Node): seq<string> {
    match n
    case Scalar(_, _) => []
    case Sequence(items) => Flatten(seq(|items|, i requires 0 <= i < |items| => Refs(items[i])))
    case Mapping(es) => Flatten(seq(|es|, i requires 0 <= i < |es| => EntryRefs(es[i])))
  }

  function EntryRefs(e: Entry): seq<string> {
    if IsRef(e) then [e.value.value] else Refs(e.value)
  }

  lemma RefsOfItem(n: Node, i: nat, r: string)
    requires n.Sequence? && i < |n.items| && r in Refs(n.items[i])
    ensures r in Refs(n)
  {
    var ss := seq(|n.items|, i requires 0 <= i < |n.items| => Refs(n.items[i]));
    assert r in ss[i];
    InFlatten(ss, r);
  }

  lemma RefsOfEntry(n: Node, i: nat, r: string)
    requires n.Mapping? && i < |n.entries| && r in EntryRefs(n.entries[i])
    ensures r in Refs(n)
  {
    var ss := seq(|n.entries|, i requires 0 <= i < |n.entries| => EntryRefs(n.entries[i]));
    assert r in ss[i];
    InFlatten(ss, r);
  }

  /** Where a reference of a collection comes from. */
  lemma RefSource(n: Node, r: string) returns (i: nat)
    requires r in Refs(n)
    ensures n.Sequence? ==> i < |n.items| && r in Refs(n.items[i])
    ensures n.Mapping? ==> i < |n.entries| && r in EntryRefs(n.entries[i])
  {
    if n.Sequence? {
      var ss := seq(|n.items|, i requires 0 <= i < |n.items| => Refs(n.items[i]));
      InFlatten(ss, r);
      i :| 0 <= i < |ss| && r in ss[i];
    } else {
      var ss := seq(|n.entries|, i requires 0 <= i < |n.entries| => EntryRefs(n.entries[i]));
      InFlatten(ss, r);
      i :| 0 <= i < |ss| && r in ss[i];
    }
  }

  function Renamed(rename: map<string, string>, ref: string): string {
    if ref in rename then rename[ref] else ref
  }

  /** `rewriteRefs`: one simultaneous pass over the `$ref` values. */
  function Rewrite(n: Node, rename: map<string, string>): Node {
    match n
    case Scalar(_, _) => n
    case Sequence(items) => Sequence(seq(|items|, i requires 0 <= i < |items| => Rewrite(items[i], rename)))
    case Mapping(es) => Mapping(seq(|es|, i requires 0 <= i < |es| => RewriteEntry(es[i], rename)))
  }

  function RewriteEntry(e: Entry, rename: map<string, string>): Entry {
    if IsRef(e) then Entry(e.key, e.value.(value := Renamed(rename, e.value.value)))
    else Entry(e.key, Rewrite(e.value, rename))
  }

  /** Rewriting keeps every mapping's keys where they were. */
  lemma RewriteKeys(es: seq<Entry>, es': seq<Entry>)
    requires |es| == |es'| && forall i | 0 <= i < |es| :: es'[i].key == es[i].key
    ensures Keys(es') == Keys(es)
    ensures forall k | k in Keys(es) :: Index(es', k) == Index(es, k)
  {
    forall k | k in Keys(es)
      ensures k in Keys(es') && Index(es', k) == Index(es, k)
    {
      IndexIs(es', k, Index(es, k));
    }
    forall k | k in Keys(es')
      ensures k in Keys(es)
    {
      assert es[Index(es', k)] in es;
    }
  }

  /** The references of a rewritten node are the old ones, renamed. */
  lemma {:induction false} RewrittenRef(n: Node, rename: map<string, string>, r: string)
    requires r in Refs(Rewrite(n, rename))
    ensures exists q :: q in Refs(n) && r == Renamed(rename, q)
    decreases n
  {
    var i := RefSource(Rewrite(n, rename), r);
    match n
    case Sequence(items) =>
      RewrittenRef(items[i], rename, r);
      var q :| q in Refs(items[i]) && r == Renamed(rename, q);
      RefsOfItem(n, i, q);
    case Mapping(es) =>
      if IsRef(es[i]) {
        RefsOfEntry(n, i, es[i].value.value);
      } else {
        RewrittenRef(es[i].value, rename, r);
        var q :| q in Refs(es[i].value) && r == Renamed(rename, q);
        RefsOfEntry(n, i, q);
      }
  }

  lemma {:induction false} RewriteHits(n: Node, rename: map<string, string>, q: string)
    requires q in Refs(n)
    ensures Renamed(rename, q) in Refs(Rewrite(n, rename))
    decreases n
  {
    var i := RefSource(n, q);
    match n
    case Sequence(items) =>
      RewriteHits(items[i], rename, q);
      RefsOfItem(Rewrite(n, rename), i, Renamed(rename, q));
    case Mapping(es) =>
      if !IsRef(es[i]) {
        RewriteHits(es[i].value, rename, q);
        assert !IsRef(RewriteEntry(es[i], rename));
      }
      assert Renamed(rename, q) in EntryRefs(RewriteEntry(es[i], rename));
      RefsOfEntry(Rewrite(n, rename), i, Renamed(rename, q));
  }

  /** Only the renaming of the references that occur matters. */
  lemma {:induction false} RewriteAgrees(n: Node, a: map<string, string>, b: map<string, string>)
    requires forall r | r in Refs(n) :: Renamed(a, r) == Renamed(b, r)
    ensures Rewrite(n, a) == Rewrite(n, b)
    decreases n
  {
    match n
    case Scalar(_, _) =>
    case Sequence(items) =>
      forall i | 0 <= i < |items|
        ensures Rewrite(items[i], a) == Rewrite(items[i], b)
      {
        forall r | r in Refs(items[i]) ensures Renamed(a, r) == Renamed(b, r) {
          RefsOfItem(n, i, r);
        }
        RewriteAgrees(items[i], a, b);
      }
    case Mapping(es) =>
      forall i | 0 <= i < |es|
        ensures RewriteEntry(es[i], a) == RewriteEntry(es[i], b)
      {
        forall r | r in EntryRefs(es[i]) ensures Renamed(a, r) == Renamed(b, r) {
          RefsOfEntry(n, i, r);
        }
        if !IsRef(es[i]) {
          RewriteAgrees(es[i].value, a, b);
        }
      }
  }

  lemma RewriteNothing(n: Node)
    ensures Rewrite(n, map[]) == n
    decreases n
  {
    match n
    case Scalar(_, _) =>
    case Sequence(items) =>
      forall i | 0 <= i < |items| ensures Rewrite(items[i], map[]) == items[i] {
        RewriteNothing(items[i]);
      }
    case Mapping(es) =>
      forall i | 0 <= i < |es| ensures RewriteEntry(es[i], map[]) == es[i] {
        if !IsRef(es[i]) {
          RewriteNothing(es[i].value);
        }
      }
  }

  lemma {:induction false} RewriteUnique(n: Node, rename: map<string, string>)
    requires KeysUnique(n)
    ensures KeysUnique(Rewrite(n, rename))
    decreases n
  {
    match n
    case Scalar(_, _) =>
    case Sequence(items) =>
      forall i | 0 <= i < |items| ensures KeysUnique(Rewrite(items[i], rename)) {
        RewriteUnique(items[i], rename);
      }
    case Mapping(es) =>
      forall i | 0 <= i < |es| ensures KeysUnique(RewriteEntry(es[i], rename).value) {
        if !IsRef(es[i]) {
          RewriteUnique(es[i].value, rename);
        }
      }
  }
}
